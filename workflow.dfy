/**
 * The publishing run: load the history, collect and rank today's eligible
 * clips, then walk the ranking and try to publish clips until the quota is
 * reached. Downloading, trimming, authentication and upload are collaborators
 * whose outcomes for a clip are given by an `Attempt` value.
 */
module Workflow {
  import opened Base
  import opened Clips
  import opened Ranking
  import opened Selection
  import opened History

  /** How many clips one run tries to publish. */
  const NUMBER_OF_CLIPS_TO_ATTEMPT_TO_PUBLISH: nat := 3

  /** A video file on disk after a step: absent, present but empty, or holding data. */
  datatype FileState = Missing | EmptyFile | NonEmpty

  /** Obtaining the YouTube service: a service, no service, or an exception. */
  datatype AuthOutcome = Authenticated | NotAuthenticated | AuthRaised

  /** The upload call: it returned a video id (possibly none), or it raised. */
  datatype UploadOutcome = UploadReturned(videoId: Option<string>) | UploadRaised

  /** What the collaborators do for one clip, and the clock reading when it is recorded. */
  datatype Attempt = Attempt(
    downloaded: bool,
    processed: FileState,
    raw: FileState,
    auth: AuthOutcome,
    upload: UploadOutcome,
    timestamp: string)

  datatype UploadFile = ProcessedFile | RawFile

  /** The trimmed file when it holds data, else the raw download when it does, else nothing. */
  function ChooseUploadFile(processed: FileState, raw: FileState): Option<UploadFile>
  {
    if processed == NonEmpty then Some(ProcessedFile)
    else if raw == NonEmpty then Some(RawFile)
    else None
  }

  /** The YouTube id a clip ends up published as, if any. */
  function PublishedVideoId(a: Attempt): Option<string>
  {
    if !a.downloaded || ChooseUploadFile(a.processed, a.raw).None? || !a.auth.Authenticated? then None
    else
      match a.upload
      case UploadReturned(Some(v)) => if v != "" then Some(v) else None
      case _ => None
  }

  /**
   * A clip is published only when it was downloaded, a usable file exists,
   * the service was obtained and the upload returned a non-empty id.
   */
  lemma PublishedOnlyOnUploadId(a: Attempt)
    ensures PublishedVideoId(a).Some? <==>
      && a.downloaded
      && (a.processed == NonEmpty || a.raw == NonEmpty)
      && a.auth == Authenticated
      && a.upload.UploadReturned? && a.upload.videoId.Some? && a.upload.videoId.value != ""
    ensures PublishedVideoId(a).Some? ==> PublishedVideoId(a) == a.upload.videoId
  {
  }

  // ------------------------------------------------------------- the run

  /** The loop's variables: published count, ids attempted this run, today's ids, the history. */
  datatype RunState = RunState(count: nat, attempted: seq<ClipId>, todayIds: seq<ClipId>, history: Buckets)

  /** Today's ids are the ones today's bucket holds. */
  predicate Consistent(s: RunState, today: Date) {
    s.todayIds == TodayPublishedIds(s.history, today)
  }

  /** One iteration for `c`, once the quota test has passed. */
  function Step(s: RunState, c: Clip, attemptOf: Clip -> Attempt, today: Date): RunState
  {
    if c.id in s.attempted || c.id in s.todayIds then s
    else
      var attempted := s.attempted + [c.id];
      var a := attemptOf(c);
      match PublishedVideoId(a)
      case None => s.(attempted := attempted)
      case Some(v) =>
        var h := WithRecord(s.history, today, c.id, v, a.timestamp);
        RunState(s.count + 1, attempted, TodayPublishedIds(h, today), h)
  }

  /** The loop over the ranking: stop at its end or once `quota` clips are published. */
  function Run(s: RunState, clips: seq<Clip>, attemptOf: Clip -> Attempt, today: Date, quota: nat): RunState
    decreases |clips|
  {
    if clips == [] || s.count >= quota then s
    else Run(Step(s, clips[0], attemptOf, today), clips[1..], attemptOf, today, quota)
  }

  /** `e` records the publication of a clip of `clips` under the id its upload returned. */
  ghost predicate PublishedFrom(e: Entry, clips: seq<Clip>, attemptOf: Clip -> Attempt) {
    exists c :: c in clips && c.id == e.twitchClipId
                && PublishedVideoId(attemptOf(c)) == Some(e.youtubeShortId)
                && e.timestamp == attemptOf(c).timestamp
  }

  lemma PublishedFromMore(e: Entry, clips: seq<Clip>, more: seq<Clip>, attemptOf: Clip -> Attempt)
    requires PublishedFrom(e, clips, attemptOf)
    requires forall c :: c in clips ==> c in more
    ensures PublishedFrom(e, more, attemptOf)
  {
    var c :| c in clips && c.id == e.twitchClipId
             && PublishedVideoId(attemptOf(c)) == Some(e.youtubeShortId)
             && e.timestamp == attemptOf(c).timestamp;
    assert c in more;
  }

  /**
   * The records appended to today's bucket between `s` and `r`: one per
   * publication, each naming a clip of `clips` under the id its upload returned.
   */
  ghost predicate Extends(s: RunState, r: RunState, clips: seq<Clip>, attemptOf: Clip -> Attempt, today: Date)
  {
    var bs, br := Bucket(s.history, today), Bucket(r.history, today);
    && s.count <= r.count
    && |br| == |bs| + (r.count - s.count)
    && br[..|bs|] == bs
    && (forall d :: d != today ==> (d in r.history <==> d in s.history))
    && (forall d :: d != today && d in s.history ==> r.history[d] == s.history[d])
    && (r.count == s.count ==> r.history == s.history)
    && (forall k :: |bs| <= k < |br| ==> PublishedFrom(br[k], clips, attemptOf))
    && s.attempted <= r.attempted
    && s.todayIds <= r.todayIds
    && (forall id :: id in r.todayIds && id !in s.todayIds ==> id in r.attempted && id !in s.attempted)
  }

  lemma StepExtends(s: RunState, c: Clip, attemptOf: Clip -> Attempt, today: Date)
    requires Consistent(s, today)
    ensures Consistent(Step(s, c, attemptOf, today), today)
    ensures Extends(s, Step(s, c, attemptOf, today), [c], attemptOf, today)
  {
    var r := Step(s, c, attemptOf, today);
    if !(c.id in s.attempted || c.id in s.todayIds) {
      var a := attemptOf(c);
      if PublishedVideoId(a).Some? {
        var v := PublishedVideoId(a).value;
        AddNewAppends(s.history, today, c.id, v, a.timestamp);
        TodayIdsAfterAdd(s.history, today, c.id, v, a.timestamp);
        var bs, br := Bucket(s.history, today), Bucket(r.history, today);
        assert br == bs + [Entry(c.id, v, a.timestamp)];
        assert br[..|bs|] == bs;
        assert r.todayIds == s.todayIds + [c.id];
        assert PublishedFrom(br[|bs|], [c], attemptOf);
      }
    }
  }

  lemma ExtendsTrans(
    s: RunState, m: RunState, r: RunState, c: Clip, rest: seq<Clip>,
    attemptOf: Clip -> Attempt, today: Date)
    requires Extends(s, m, [c], attemptOf, today)
    requires Extends(m, r, rest, attemptOf, today)
    ensures Extends(s, r, [c] + rest, attemptOf, today)
  {
    var bs, bm, br := Bucket(s.history, today), Bucket(m.history, today), Bucket(r.history, today);
    assert br[..|bs|] == bm[..|bs|] == bs by {
      assert br[..|bm|] == bm;
    }
    forall k | |bs| <= k < |br| ensures PublishedFrom(br[k], [c] + rest, attemptOf) {
      if k < |bm| {
        assert br[k] == bm[k];
        PublishedFromMore(bm[k], [c], [c] + rest, attemptOf);
      } else {
        PublishedFromMore(br[k], rest, [c] + rest, attemptOf);
      }
    }
    if r.count == s.count {
      assert m.count == s.count;
    }
  }

  /**
   * History changes only through publications: every record the run adds is
   * appended to today's bucket and names a clip of the ranking whose upload
   * returned that id; the count grows by the number of records added; other
   * dates are untouched; no publication leaves the history as it was.
   */
  lemma {:induction false} RunExtends(s: RunState, clips: seq<Clip>, attemptOf: Clip -> Attempt, today: Date, quota: nat)
    requires Consistent(s, today)
    ensures Consistent(Run(s, clips, attemptOf, today, quota), today)
    ensures Extends(s, Run(s, clips, attemptOf, today, quota), clips, attemptOf, today)
    decreases |clips|
  {
    if !(clips == [] || s.count >= quota) {
      var m := Step(s, clips[0], attemptOf, today);
      StepExtends(s, clips[0], attemptOf, today);
      RunExtends(m, clips[1..], attemptOf, today, quota);
      ExtendsTrans(s, m, Run(m, clips[1..], attemptOf, today, quota), clips[0], clips[1..], attemptOf, today);
      assert [clips[0]] + clips[1..] == clips;
    }
  }

  /** The run never publishes more than its quota. */
  lemma {:induction false} RunWithinQuota(s: RunState, clips: seq<Clip>, attemptOf: Clip -> Attempt, today: Date, quota: nat)
    requires s.count <= quota
    ensures s.count <= Run(s, clips, attemptOf, today, quota).count <= quota
    decreases |clips|
  {
    if !(clips == [] || s.count >= quota) {
      var m := Step(s, clips[0], attemptOf, today);
      assert m.count <= s.count + 1;
      RunWithinQuota(m, clips[1..], attemptOf, today, quota);
    }
  }

  /**
   * No clip is tried twice in a run: the attempted ids stay pairwise
   * distinct, and none of them was published today when the run began.
   */
  lemma {:induction false} RunNeverReattempts(s: RunState, clips: seq<Clip>, attemptOf: Clip -> Attempt, today: Date, quota: nat)
    requires Consistent(s, today) && Distinct(s.attempted)
    ensures var r := Run(s, clips, attemptOf, today, quota);
            && Distinct(r.attempted)
            && forall k :: |s.attempted| <= k < |r.attempted| ==> r.attempted[k] !in s.todayIds
    decreases |clips|
  {
    var r := Run(s, clips, attemptOf, today, quota);
    if !(clips == [] || s.count >= quota) {
      var c := clips[0];
      var m := Step(s, c, attemptOf, today);
      StepExtends(s, c, attemptOf, today);
      if !(c.id in s.attempted || c.id in s.todayIds) {
        forall i, j | 0 <= i < j < |m.attempted| ensures m.attempted[i] != m.attempted[j] {
          if j == |s.attempted| {
            assert m.attempted[i] == s.attempted[i];
          }
        }
      }
      RunNeverReattempts(m, clips[1..], attemptOf, today, quota);
      RunExtends(m, clips[1..], attemptOf, today, quota);
      forall k | |s.attempted| <= k < |r.attempted| ensures r.attempted[k] !in s.todayIds {
        if k < |m.attempted| {
          assert r.attempted[k] == m.attempted[k] == c.id;
        } else {
          assert r.attempted[k] !in m.todayIds;
          assert s.todayIds <= m.todayIds;
        }
      }
    }
  }

  /** Today's ids stay pairwise distinct over the run. */
  lemma {:induction false} RunKeepsTodayDistinct(s: RunState, clips: seq<Clip>, attemptOf: Clip -> Attempt, today: Date, quota: nat)
    requires Consistent(s, today) && Distinct(s.todayIds)
    ensures Distinct(Run(s, clips, attemptOf, today, quota).todayIds)
    decreases |clips|
  {
    if !(clips == [] || s.count >= quota) {
      var c := clips[0];
      var m := Step(s, c, attemptOf, today);
      StepExtends(s, c, attemptOf, today);
      if !(c.id in s.attempted || c.id in s.todayIds) && PublishedVideoId(attemptOf(c)).Some? {
        AddKeepsDistinct(s.history, today, c.id, PublishedVideoId(attemptOf(c)).value, attemptOf(c).timestamp);
      }
      RunKeepsTodayDistinct(m, clips[1..], attemptOf, today, quota);
    }
  }

  /**
   * A run that ends under its quota has considered every clip of the
   * ranking: each was attempted, or was published today.
   */
  lemma {:induction false} RunConsidersAll(s: RunState, clips: seq<Clip>, attemptOf: Clip -> Attempt, today: Date, quota: nat)
    requires Consistent(s, today)
    ensures var r := Run(s, clips, attemptOf, today, quota);
            r.count < quota ==> forall c :: c in clips ==> c.id in r.attempted || c.id in r.todayIds
    decreases |clips|
  {
    var r := Run(s, clips, attemptOf, today, quota);
    if !(clips == [] || s.count >= quota) {
      var c := clips[0];
      var m := Step(s, c, attemptOf, today);
      StepExtends(s, c, attemptOf, today);
      RunConsidersAll(m, clips[1..], attemptOf, today, quota);
      RunExtends(m, clips[1..], attemptOf, today, quota);
      if r.count < quota {
        assert c.id in m.attempted || c.id in m.todayIds;
        assert c.id in r.attempted || c.id in r.todayIds;
        assert forall x :: x in clips ==> x == c || x in clips[1..];
      }
    } else if clips != [] {
      assert s.count >= quota;
    }
  }

  /**
   * The fallback to the raw download: when trimming left no usable file but
   * the download holds data, the raw file is uploaded, and an upload that
   * returns an id records the clip and counts it.
   */
  lemma RawFileFallbackPublishes(s: RunState, c: Clip, attemptOf: Clip -> Attempt, today: Date)
    requires Consistent(s, today)
    requires c.id !in s.attempted && c.id !in s.todayIds
    requires var a := attemptOf(c);
             && a.downloaded && a.processed != NonEmpty && a.raw == NonEmpty && a.auth == Authenticated
             && a.upload.UploadReturned? && a.upload.videoId.Some? && a.upload.videoId.value != ""
    ensures ChooseUploadFile(attemptOf(c).processed, attemptOf(c).raw) == Some(RawFile)
    ensures var r := Step(s, c, attemptOf, today);
            var a := attemptOf(c);
            && r.count == s.count + 1
            && r.attempted == s.attempted + [c.id]
            && r.todayIds == s.todayIds + [c.id]
            && Bucket(r.history, today) == Bucket(s.history, today) + [Entry(c.id, a.upload.videoId.value, a.timestamp)]
  {
    var a := attemptOf(c);
    AddNewAppends(s.history, today, c.id, a.upload.videoId.value, a.timestamp);
    TodayIdsAfterAdd(s.history, today, c.id, a.upload.videoId.value, a.timestamp);
  }

  /**
   * Every success is recorded: a clip of the ranking that the run attempted
   * and whose upload returned an id ends among today's ids.
   */
  lemma {:induction false} RunRecordsSuccesses(s: RunState, clips: seq<Clip>, attemptOf: Clip -> Attempt, today: Date, quota: nat)
    requires Consistent(s, today) && DistinctIds(clips)
    ensures var r := Run(s, clips, attemptOf, today, quota);
            forall c :: c in clips && c.id in r.attempted && c.id !in s.attempted && PublishedVideoId(attemptOf(c)).Some?
                        ==> c.id in r.todayIds
    decreases |clips|
  {
    var r := Run(s, clips, attemptOf, today, quota);
    if !(clips == [] || s.count >= quota) {
      var c0 := clips[0];
      var m := Step(s, c0, attemptOf, today);
      StepExtends(s, c0, attemptOf, today);
      RunExtends(m, clips[1..], attemptOf, today, quota);
      assert DistinctIds(clips[1..]) by {
        forall i, j | 0 <= i < j < |clips[1..]| ensures clips[1..][i].id != clips[1..][j].id {
          assert clips[1..][i] == clips[i + 1] && clips[1..][j] == clips[j + 1];
        }
      }
      RunRecordsSuccesses(m, clips[1..], attemptOf, today, quota);
      PrefixMembers(m.todayIds, r.todayIds);
      PrefixMembers(s.todayIds, m.todayIds);
      forall c | c in clips && c.id in r.attempted && c.id !in s.attempted && PublishedVideoId(attemptOf(c)).Some?
        ensures c.id in r.todayIds
      {
        if c == c0 {
          if c0.id !in s.todayIds {
            var a := attemptOf(c0);
            TodayIdsAfterAdd(s.history, today, c0.id, PublishedVideoId(a).value, a.timestamp);
          }
          assert c.id in m.todayIds;
        } else {
          var k :| 0 <= k < |clips| && clips[k] == c;
          assert clips[0].id != clips[k].id;
          assert c in clips[1..] by {
            assert clips[1..][k - 1] == c;
          }
        }
      }
    }
  }

  // ------------------------------------------------------- a worked run

  function SampleClip(id: ClipId, views: int): Clip {
    Clip(id, Value("https://clips.example/" + id), Absent, Absent, Value("t"), views,
         Value("b"), Value("streamer"), Value("game"), Value("2024-05-17T10:00:00Z"), 30.0, Value("fr"))
  }

  /** The download of "c1" fails; every other clip is uploaded, "c2" as "yt2", the rest as "yt3". */
  function SampleAttempt(c: Clip): Attempt {
    if c.id == "c1" then Attempt(false, Missing, Missing, Authenticated, UploadRaised, "t1")
    else Attempt(true, NonEmpty, NonEmpty, Authenticated, UploadReturned(Some(if c.id == "c2" then "yt2" else "yt3")), "t2")
  }

  lemma SampleFirstStep(today: Date)
    ensures Step(RunState(0, [], [], map[]), SampleClip("c1", 900), SampleAttempt, today)
            == RunState(0, ["c1"], [], map[])
  {
  }

  lemma SampleSecondStep(today: Date)
    ensures Step(RunState(0, ["c1"], [], map[]), SampleClip("c2", 500), SampleAttempt, today)
            == RunState(1, ["c1", "c2"], ["c2"], map[today := [Entry("c2", "yt2", "t2")]])
  {
    var h := map[today := [Entry("c2", "yt2", "t2")]];
    assert PublishedVideoId(SampleAttempt(SampleClip("c2", 500))) == Some("yt2");
    AddNewAppends(map[], today, "c2", "yt2", "t2");
    var r := WithRecord(map[], today, "c2", "yt2", "t2");
    assert r.Keys == h.Keys && r[today] == h[today];
    assert r == h;
    assert TodayPublishedIds(h, today) == ["c2"];
  }

  lemma SampleThirdStep(today: Date)
    ensures Step(RunState(1, ["c1", "c2"], ["c2"], map[today := [Entry("c2", "yt2", "t2")]]),
                 SampleClip("c3", 100), SampleAttempt, today)
            == RunState(2, ["c1", "c2", "c3"], ["c2", "c3"],
                        map[today := [Entry("c2", "yt2", "t2"), Entry("c3", "yt3", "t2")]])
  {
    var h2 := map[today := [Entry("c2", "yt2", "t2")]];
    var h3 := map[today := [Entry("c2", "yt2", "t2"), Entry("c3", "yt3", "t2")]];
    assert PublishedVideoId(SampleAttempt(SampleClip("c3", 100))) == Some("yt3");
    assert TodayPublishedIds(h2, today) == ["c2"];
    AddNewAppends(h2, today, "c3", "yt3", "t2");
    var r := WithRecord(h2, today, "c3", "yt3", "t2");
    assert r.Keys == h3.Keys && r[today] == h3[today];
    assert r == h3;
    assert TodayPublishedIds(h3, today) == ["c2", "c3"];
  }

  /**
   * Ranking [C1, C2, C3], quota 2, the download of C1 fails and the other two
   * succeed: two clips are published and today's bucket is [C2, C3].
   */
  lemma FailedDownloadIsSkipped(today: Date)
    ensures var r := Run(RunState(0, [], [], map[]), [SampleClip("c1", 900), SampleClip("c2", 500), SampleClip("c3", 100)],
                         SampleAttempt, today, 2);
            && r.count == 2
            && r.attempted == ["c1", "c2", "c3"]
            && r.history == map[today := [Entry("c2", "yt2", "t2"), Entry("c3", "yt3", "t2")]]
  {
    var c1, c2, c3 := SampleClip("c1", 900), SampleClip("c2", 500), SampleClip("c3", 100);
    var clips := [c1, c2, c3];
    var s0 := RunState(0, [], [], map[]);
    var s1 := RunState(0, ["c1"], [], map[]);
    var s2 := RunState(1, ["c1", "c2"], ["c2"], map[today := [Entry("c2", "yt2", "t2")]]);
    var s3 := RunState(2, ["c1", "c2", "c3"], ["c2", "c3"],
                       map[today := [Entry("c2", "yt2", "t2"), Entry("c3", "yt3", "t2")]]);
    SampleFirstStep(today);
    SampleSecondStep(today);
    SampleThirdStep(today);
    assert clips[1..] == [c2, c3] && [c2, c3][1..] == [c3] && [c3][1..] == [];
    assert Run(s0, clips, SampleAttempt, today, 2) == Run(s1, [c2, c3], SampleAttempt, today, 2);
    assert Run(s1, [c2, c3], SampleAttempt, today, 2) == Run(s2, [c3], SampleAttempt, today, 2);
    assert Run(s2, [c3], SampleAttempt, today, 2) == Run(s3, [], SampleAttempt, today, 2) == s3;
  }

  // --------------------------------------------------------- the runner

  /**
   * The publishing loop over `ranked`, updating `store` in place after each
   * upload that returned an id.
   */
  method PublishLoop(
    store: HistoryStore, today: Date, ranked: seq<Clip>, todayIds0: seq<ClipId>,
    attemptOf: Clip -> Attempt, quota: nat)
    returns (count: nat, attempted: seq<ClipId>, todayIds: seq<ClipId>)
    modifies store
    ensures RunState(count, attempted, todayIds, store.buckets)
            == Run(RunState(0, [], todayIds0, old(store.buckets)), ranked, attemptOf, today, quota)
  {
    ghost var start := RunState(0, [], todayIds0, store.buckets);
    count, attempted, todayIds := 0, [], todayIds0;
    var i := 0;
    while i < |ranked|
      invariant 0 <= i <= |ranked|
      invariant Run(start, ranked, attemptOf, today, quota)
                == Run(RunState(count, attempted, todayIds, store.buckets), ranked[i..], attemptOf, today, quota)
    {
      ghost var before := RunState(count, attempted, todayIds, store.buckets);
      assert ranked[i..][1..] == ranked[i + 1..];
      if count >= quota {
        break;
      }
      var clip := ranked[i];
      i := i + 1;
      if clip.id in attempted || clip.id in todayIds {
        continue;
      }
      attempted := attempted + [clip.id];
      var a := attemptOf(clip);
      if !a.downloaded {
        continue;
      }
      var file := ChooseUploadFile(a.processed, a.raw);
      if file.None? {
        continue;
      }
      if a.auth == Authenticated {
        match a.upload
        case UploadRaised =>
        case UploadReturned(videoId) =>
          if videoId.Some? && videoId.value != "" {
            store.AddToHistory(today, clip.id, videoId.value, a.timestamp);
            todayIds := TodayPublishedIds(store.buckets, today);
            count := count + 1;
          }
      }
      assert RunState(count, attempted, todayIds, store.buckets) == Step(before, clip, attemptOf, today);
    }
  }

  /**
   * What reading the Twitch token produced: a token, a failed request, or a
   * successful response without an `access_token` key.
   */
  datatype TokenOutcome = TokenIssued(token: string) | TokenRequestFailed | TokenKeyMissing

  /** How a run ends. */
  datatype RunEnd =
    | ExitedWithError     // the token request failed and the process exited with status 1
    | Crashed             // reading the missing token key raised, and nothing caught it
    | NoToken             // the token came back empty
    | NoEligibleClips     // nothing to publish today
    | Completed(published: nat)

  /** The ranking a run with history `h` publishes from. */
  function RankedFor(fetch: Endpoint, h: Buckets, today: Date): seq<Clip> {
    SortByViews(Admitted(Collected(fetch, ConfiguredSources()), IdsOf(TodayPublishedIds(h, today))))
  }

  /** One run of the workflow. */
  method RunWorkflow(
    stored: StoredHistory, today: Date, token: TokenOutcome,
    fetch: Endpoint, attemptOf: Clip -> Attempt)
    returns (store: HistoryStore, end: RunEnd)
    ensures fresh(store)
    ensures token.TokenRequestFailed? ==> end == ExitedWithError && store.buckets == LoadedBuckets(stored)
    ensures token.TokenKeyMissing? ==> end == Crashed && store.buckets == LoadedBuckets(stored)
    ensures token == TokenIssued("") ==> end == NoToken && store.buckets == LoadedBuckets(stored)
    ensures token.TokenIssued? && token.token != "" ==>
      var h := LoadedBuckets(stored);
      var ranked := RankedFor(fetch, h, today);
      var r := Run(RunState(0, [], TodayPublishedIds(h, today), h), ranked, attemptOf, today,
                   NUMBER_OF_CLIPS_TO_ATTEMPT_TO_PUBLISH);
      && store.buckets == r.history
      && (ranked == [] ==> end == NoEligibleClips)
      && (ranked != [] ==> end == Completed(r.count))
  {
    store := new HistoryStore.Load(stored);
    var todayIds := TodayPublishedIds(store.buckets, today);
    if token.TokenRequestFailed? {
      return store, ExitedWithError;
    }
    if token.TokenKeyMissing? {
      return store, Crashed;
    }
    if token.token == "" {
      return store, NoToken;
    }
    var ranked := GetEligibleShortClips(fetch, todayIds);
    if ranked == [] {
      return store, NoEligibleClips;
    }
    var count, attempted, todayAfter := PublishLoop(store, today, ranked, todayIds, attemptOf,
                                                    NUMBER_OF_CLIPS_TO_ATTEMPT_TO_PUBLISH);
    end := Completed(count);
  }

  /**
   * A history file that is missing, corrupt or unreadable counts as an empty
   * history: the run starts with no ids published today and ranks every
   * admitted clip.
   */
  lemma LostHistoryExcludesNothing(stored: StoredHistory, fetch: Endpoint, today: Date)
    requires !stored.Parsed?
    ensures LoadedBuckets(stored) == map[]
    ensures TodayPublishedIds(LoadedBuckets(stored), today) == []
    ensures RankedFor(fetch, LoadedBuckets(stored), today) == SortByViews(Admitted(Collected(fetch, ConfiguredSources()), {}))
  {
    assert IdsOf([]) == {};
  }

  /** A completed run published at most the configured number of clips. */
  lemma CompletedRunWithinQuota(stored: StoredHistory, today: Date, fetch: Endpoint, attemptOf: Clip -> Attempt)
    ensures var h := LoadedBuckets(stored);
            Run(RunState(0, [], TodayPublishedIds(h, today), h), RankedFor(fetch, h, today), attemptOf, today,
                NUMBER_OF_CLIPS_TO_ATTEMPT_TO_PUBLISH).count <= NUMBER_OF_CLIPS_TO_ATTEMPT_TO_PUBLISH
  {
    var h := LoadedBuckets(stored);
    RunWithinQuota(RunState(0, [], TodayPublishedIds(h, today), h), RankedFor(fetch, h, today), attemptOf, today,
                   NUMBER_OF_CLIPS_TO_ATTEMPT_TO_PUBLISH);
  }
}
