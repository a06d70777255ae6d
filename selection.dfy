/**
 * Selection of the clips worth publishing: every source query is fetched
 * (channels first, then games), each clip is admitted when its id is new to
 * this pass and to today's history, its language is the configured one and
 * its duration lies within the configured bounds; the admitted clips are then
 * ranked by views.
 */
module Selection {
  import opened Base
  import opened Clips
  import opened Ranking

  /** The language and duration test applied to every fetched clip. */
  predicate Eligible(c: Clip) {
    && c.language == Value(CLIP_LANGUAGE)
    && MIN_VIDEO_DURATION_SECONDS <= c.duration <= MAX_VIDEO_DURATION_SECONDS
  }

  function IdSet(s: seq<Clip>): set<ClipId> {
    set c | c in s :: c.id
  }

  lemma IdSetSnoc(s: seq<Clip>, c: Clip)
    ensures IdSet(s + [c]) == IdSet(s) + {c.id}
  {
    assert forall y :: y in s + [c] <==> y in s || y == c;
  }

  function IdsOf(ids: seq<ClipId>): set<ClipId> {
    set id | id in ids
  }

  /**
   * The clips a left-to-right pass keeps. A clip is kept when it is eligible
   * and its id is neither published nor the id of a clip kept earlier.
   */
  function Admitted(clips: seq<Clip>, published: set<ClipId>): seq<Clip>
    decreases |clips|
  {
    if clips == [] then []
    else
      var before := Admitted(clips[..|clips| - 1], published);
      var c := clips[|clips| - 1];
      if c.id !in published + IdSet(before) && Eligible(c) then before + [c] else before
  }

  /** Every kept clip is one of the input clips, eligible and unpublished, and no two share an id. */
  lemma {:induction false} AdmittedSound(clips: seq<Clip>, published: set<ClipId>)
    ensures forall c :: c in Admitted(clips, published) ==> c in clips && Eligible(c) && c.id !in published
    ensures DistinctIds(Admitted(clips, published))
    decreases |clips|
  {
    if clips != [] {
      var init := clips[..|clips| - 1];
      AdmittedSound(init, published);
      assert forall y :: y in init ==> y in clips;
    }
  }

  /** `clips[k]` is eligible, unpublished, and no earlier eligible clip has its id. */
  predicate FirstEligible(clips: seq<Clip>, published: set<ClipId>, k: nat)
    requires k < |clips|
  {
    && Eligible(clips[k])
    && clips[k].id !in published
    && forall j :: 0 <= j < k && Eligible(clips[j]) ==> clips[j].id != clips[k].id
  }

  /**
   * Completeness: an eligible, unpublished clip always has its id among the
   * kept clips, and it is itself kept when it is the first eligible clip with
   * that id.
   */
  lemma {:induction false} AdmittedComplete(clips: seq<Clip>, published: set<ClipId>, k: nat)
    requires k < |clips| && Eligible(clips[k]) && clips[k].id !in published
    ensures clips[k].id in IdSet(Admitted(clips, published))
    ensures FirstEligible(clips, published, k) ==> clips[k] in Admitted(clips, published)
    decreases |clips|
  {
    var init := clips[..|clips| - 1];
    var before := Admitted(init, published);
    if k < |clips| - 1 {
      AdmittedComplete(init, published, k);
    } else if clips[k].id in IdSet(before) {
      AdmittedSound(init, published);
      var y :| y in before && y.id == clips[k].id;
      var j :| 0 <= j < |init| && init[j] == y;
      assert clips[j] == y && Eligible(y);
    }
  }

  /**
   * Soundness of the order: every kept clip is the first eligible,
   * unpublished clip with its id.
   */
  lemma {:induction false} AdmittedOnlyFirst(clips: seq<Clip>, published: set<ClipId>, c: Clip)
    requires c in Admitted(clips, published)
    ensures exists k :: 0 <= k < |clips| && clips[k] == c && FirstEligible(clips, published, k)
    decreases |clips|
  {
    var init := clips[..|clips| - 1];
    var before := Admitted(init, published);
    AdmittedSound(init, published);
    if c in before {
      AdmittedOnlyFirst(init, published, c);
      var k :| 0 <= k < |init| && init[k] == c && FirstEligible(init, published, k);
      assert clips[k] == c && FirstEligible(clips, published, k);
    } else {
      var k := |clips| - 1;
      assert clips[k] == c;
      forall j | 0 <= j < k && Eligible(clips[j]) ensures clips[j].id != c.id {
        if clips[j].id == c.id {
          assert init[j] == clips[j];
          AdmittedComplete(init, published, j);
        }
      }
    }
  }

  /** One more clip: it is kept exactly when it is eligible and its id is new. */
  lemma AdmittedStep(prefix: seq<Clip>, c: Clip, published: set<ClipId>, seen: set<ClipId>)
    requires seen == published + IdSet(Admitted(prefix, published))
    ensures c.id !in seen && Eligible(c) ==>
      && Admitted(prefix + [c], published) == Admitted(prefix, published) + [c]
      && seen + {c.id} == published + IdSet(Admitted(prefix + [c], published))
    ensures !(c.id !in seen && Eligible(c)) ==> Admitted(prefix + [c], published) == Admitted(prefix, published)
  {
    assert (prefix + [c])[..|prefix|] == prefix;
    IdSetSnoc(Admitted(prefix, published), c);
  }

  /** Clips that all occurred earlier add nothing: each is ineligible, published or already kept by id. */
  lemma {:induction false} AdmittedIgnoresKnown(prefix: seq<Clip>, more: seq<Clip>, published: set<ClipId>)
    requires forall q :: q in more ==> q in prefix
    ensures Admitted(prefix + more, published) == Admitted(prefix, published)
    decreases |more|
  {
    if more != [] {
      var init, q := more[..|more| - 1], more[|more| - 1];
      assert forall x :: x in init ==> x in more;
      AdmittedIgnoresKnown(prefix, init, published);
      var kept := Admitted(prefix + init, published);
      if q.id !in published && Eligible(q) {
        assert q in more;
        var k :| 0 <= k < |prefix| && prefix[k] == q;
        AdmittedComplete(prefix, published, k);
        assert q.id in IdSet(kept);
      }
      AdmittedStep(prefix + init, q, published, published + IdSet(kept));
      assert prefix + more == (prefix + init) + [q];
    } else {
      assert prefix + more == prefix;
    }
  }

  /**
   * A query answered exactly as an earlier query of the pass was admits
   * nothing: every clip it returns was already seen.
   */
  lemma RepeatedAnswerAddsNothing(fetch: Endpoint, sources: seq<Source>, i: nat, j: nat, published: set<ClipId>)
    requires i < j < |sources| && fetch(i, sources[i]) == fetch(j, sources[j])
    ensures Admitted(Collected(fetch, sources[..j + 1]), published) == Admitted(Collected(fetch, sources[..j]), published)
  {
    CollectedStep(fetch, sources, j);
    var done, again := Collected(fetch, sources[..j]), FetchedClips(fetch(j, sources[j]));
    forall q | q in again ensures q in done {
      var m :| 0 <= m < |again| && again[m] == q;
      assert sources[..j][i] == sources[i];
      CollectedHasEverySource(fetch, sources[..j], i, m);
    }
    AdmittedIgnoresKnown(done, again, published);
  }

  /**
   * Channel "737048563" is configured twice (the second and the eighth
   * query). When the endpoint answers both requests alike, the eighth query
   * admits nothing.
   */
  lemma DuplicateChannelAddsNothing(fetch: Endpoint, published: set<ClipId>)
    requires fetch(1, Broadcaster("737048563")) == fetch(7, Broadcaster("737048563"))
    ensures Admitted(Collected(fetch, ConfiguredSources()[..8]), published)
            == Admitted(Collected(fetch, ConfiguredSources()[..7]), published)
  {
    assert ConfiguredSources()[1] == Broadcaster("737048563") == ConfiguredSources()[7];
    RepeatedAnswerAddsNothing(fetch, ConfiguredSources(), 1, 7, published);
  }

  /**
   * Game "32982" is configured twice (the third and the seventh game query).
   * When the endpoint answers both requests alike, the second admits nothing.
   */
  lemma DuplicateGameAddsNothing(fetch: Endpoint, published: set<ClipId>)
    requires fetch(|BROADCASTER_IDS| + 2, Game("32982")) == fetch(|BROADCASTER_IDS| + 6, Game("32982"))
    ensures Admitted(Collected(fetch, ConfiguredSources()[..|BROADCASTER_IDS| + 7]), published)
            == Admitted(Collected(fetch, ConfiguredSources()[..|BROADCASTER_IDS| + 6]), published)
  {
    var n := |BROADCASTER_IDS|;
    assert ConfiguredSources()[n + 2] == Game("32982") == ConfiguredSources()[n + 6];
    RepeatedAnswerAddsNothing(fetch, ConfiguredSources(), n + 2, n + 6, published);
  }

  /** An eligible clip object, used by the scenario below. */
  function SampleRawClip(): RawClip {
    RawClip("clip-a", Value("https://clips.example/clip-a"), Absent, Absent, Value("t"), Some(10),
            Value("b"), Value("streamer"), Value("game"), Value("2024-05-17T10:00:00Z"), Some(30.0), Value("fr"))
  }

  /**
   * The repeated query is not always redundant: when the first request for a
   * game fails with an HTTP error and the repeat returns a clip, the repeat
   * admits it.
   */
  lemma RepeatAnsweredDifferentlyAdmits()
    ensures var sources := [Game("32982"), Game("32982")];
            var fetch: Endpoint := (n: nat, src: Source) => if n == 0 then HttpError(Readable) else Payload(Some([SampleRawClip()]));
            && Admitted(Collected(fetch, sources[..1]), {}) == []
            && Admitted(Collected(fetch, sources[..2]), {}) == [ToClip(SampleRawClip())]
  {
    var sources := [Game("32982"), Game("32982")];
    var fetch: Endpoint := (n: nat, src: Source) => if n == 0 then HttpError(Readable) else Payload(Some([SampleRawClip()]));
    var c := ToClip(SampleRawClip());
    assert sources[..1][..0] == [] && sources[..2][..1] == sources[..1];
    assert Collected(fetch, sources[..1]) == [];
    assert FetchedClips(fetch(1, sources[1])) == [c];
    assert Collected(fetch, sources[..2]) == [c];
    assert [c][..0] == [];
    assert Eligible(c);
    assert Admitted([c], {}) == [c];
  }

  /** A clip object without `duration` records 0.0 seconds and is never admitted. */
  lemma MissingDurationNeverAdmitted(raw: RawClip)
    requires raw.duration.None?
    ensures !Eligible(ToClip(raw))
  {
  }

  /** A clip object without a `language`, or with a null one, is recorded as null and is never admitted. */
  lemma MissingLanguageNeverAdmitted(raw: RawClip)
    requires !raw.language.Value?
    ensures !Eligible(ToClip(raw))
  {
    RecordHasEveryKey(raw);
  }

  /** The test applied to one fetched clip: kept when its id is unseen and it is eligible. */
  method AdmitClip(
    clip: Clip, ghost done: seq<Clip>, ghost published: set<ClipId>,
    potential: seq<Clip>, seen: set<ClipId>)
    returns (potentialAfter: seq<Clip>, seenAfter: set<ClipId>)
    requires potential == Admitted(done, published) && seen == published + IdSet(potential)
    ensures potentialAfter == Admitted(done + [clip], published)
    ensures seenAfter == published + IdSet(potentialAfter)
  {
    AdmittedStep(done, clip, published, seen);
    potentialAfter, seenAfter := potential, seen;
    if clip.id !in seen && clip.language == Value(CLIP_LANGUAGE)
       && MIN_VIDEO_DURATION_SECONDS <= clip.duration <= MAX_VIDEO_DURATION_SECONDS
    {
      potentialAfter := potential + [clip];
      seenAfter := seen + {clip.id};
    }
  }

  /** Admitting the clips of `collected + clips` extends the clips admitted from `collected`. */
  method AdmitClips(
    clips: seq<Clip>, ghost collected: seq<Clip>, ghost published: set<ClipId>,
    potential: seq<Clip>, seen: set<ClipId>)
    returns (potentialAfter: seq<Clip>, seenAfter: set<ClipId>)
    requires potential == Admitted(collected, published) && seen == published + IdSet(potential)
    ensures potentialAfter == Admitted(collected + clips, published)
    ensures seenAfter == published + IdSet(potentialAfter)
  {
    potentialAfter, seenAfter := potential, seen;
    var i := 0;
    assert collected + clips[..0] == collected;
    while i < |clips|
      invariant 0 <= i <= |clips|
      invariant potentialAfter == Admitted(collected + clips[..i], published)
      invariant seenAfter == published + IdSet(potentialAfter)
    {
      var clip := clips[i];
      ghost var done := collected + clips[..i];
      assert collected + clips[..i + 1] == done + [clip] by {
        assert clips[..i + 1] == clips[..i] + [clip];
      }
      potentialAfter, seenAfter := AdmitClip(clip, done, published, potentialAfter, seenAfter);
      i := i + 1;
    }
    assert clips[..i] == clips;
  }

  /** One query, the pass's `position`-th: fetch the clips of `source` and admit each in turn. */
  method CollectFromSource(
    fetch: Endpoint, source: Source, position: nat, ghost done: seq<Source>, ghost published: set<ClipId>,
    potential: seq<Clip>, seen: set<ClipId>)
    returns (potentialAfter: seq<Clip>, seenAfter: set<ClipId>)
    requires position == |done|
    requires potential == Admitted(Collected(fetch, done), published)
    requires seen == published + IdSet(potential)
    ensures potentialAfter == Admitted(Collected(fetch, done + [source]), published)
    ensures seenAfter == published + IdSet(potentialAfter)
  {
    var clips := FetchClips(fetch(position, source));
    CollectedSnoc(fetch, done, source);
    potentialAfter, seenAfter := AdmitClips(clips, Collected(fetch, done), published, potential, seen);
  }

  /** The channel phase of the collection pass: one query per channel, in order. */
  method CollectFromBroadcasters(
    fetch: Endpoint, broadcasterIds: seq<string>, ghost published: set<ClipId>, seen0: set<ClipId>)
    returns (potential: seq<Clip>, seen: set<ClipId>)
    requires seen0 == published
    ensures potential == Admitted(Collected(fetch, ChannelQueries(broadcasterIds)), published)
    ensures seen == published + IdSet(potential)
  {
    potential, seen := [], seen0;
    for k := 0 to |broadcasterIds|
      invariant potential == Admitted(Collected(fetch, ChannelQueries(broadcasterIds[..k])), published)
      invariant seen == published + IdSet(potential)
    {
      ChannelQueriesStep(broadcasterIds, k);
      potential, seen := CollectFromSource(
        fetch, Broadcaster(broadcasterIds[k]), k, ChannelQueries(broadcasterIds[..k]), published, potential, seen);
    }
    assert broadcasterIds[..|broadcasterIds|] == broadcasterIds;
  }

  /**
   * The game phase: one query per game category, after the `first` channel
   * queries `channels`, skipping ids already seen.
   */
  method CollectFromGames(
    fetch: Endpoint, ghost channels: seq<Source>, first: nat, gameIds: seq<string>,
    ghost published: set<ClipId>, potential0: seq<Clip>, seen0: set<ClipId>)
    returns (potential: seq<Clip>, seen: set<ClipId>)
    requires first == |channels|
    requires potential0 == Admitted(Collected(fetch, channels), published)
    requires seen0 == published + IdSet(potential0)
    ensures potential == Admitted(Collected(fetch, channels + GameQueries(gameIds)), published)
    ensures seen == published + IdSet(potential)
  {
    potential, seen := potential0, seen0;
    assert channels + GameQueries(gameIds[..0]) == channels;
    for k := 0 to |gameIds|
      invariant potential == Admitted(Collected(fetch, channels + GameQueries(gameIds[..k])), published)
      invariant seen == published + IdSet(potential)
    {
      ghost var done := channels + GameQueries(gameIds[..k]);
      GameQueriesStep(gameIds, k);
      assert channels + GameQueries(gameIds[..k + 1]) == done + [Game(gameIds[k])];
      potential, seen := CollectFromSource(fetch, Game(gameIds[k]), first + k, done, published, potential, seen);
    }
    assert gameIds[..|gameIds|] == gameIds;
  }

  /**
   * The collection pass: every channel query, then every game query, each
   * fetched clip admitted or skipped as it arrives.
   */
  method CollectEligible(
    fetch: Endpoint, broadcasterIds: seq<string>, gameIds: seq<string>,
    alreadyPublished: seq<ClipId>)
    returns (potential: seq<Clip>)
    ensures potential == Admitted(Collected(fetch, Sources(broadcasterIds, gameIds)), IdsOf(alreadyPublished))
  {
    var seen := IdsOf(alreadyPublished);
    potential, seen := CollectFromBroadcasters(fetch, broadcasterIds, IdsOf(alreadyPublished), seen);
    potential, seen := CollectFromGames(
      fetch, ChannelQueries(broadcasterIds), |broadcasterIds|, gameIds, IdsOf(alreadyPublished), potential, seen);
  }

  /**
   * One collection pass over the configured channels and games, then the
   * ranking. The result is the admitted clips of all queries, ranked by views.
   */
  method GetEligibleShortClips(fetch: Endpoint, alreadyPublished: seq<ClipId>)
    returns (eligible: seq<Clip>)
    ensures eligible == SortByViews(Admitted(Collected(fetch, ConfiguredSources()), IdsOf(alreadyPublished)))
    ensures forall c :: c in eligible ==> Eligible(c) && c.id !in alreadyPublished
    ensures DistinctIds(eligible)
    ensures SortedByViews(eligible)
  {
    var potential := CollectEligible(fetch, BROADCASTER_IDS, GAME_IDS, alreadyPublished);
    var ranked := new Clip[|potential|](i requires 0 <= i < |potential| => potential[i]);
    assert ranked[..] == potential;
    SortByViewsInPlace(ranked);
    eligible := ranked[..];

    SortByViewsPermutes(potential);
    SortByViewsSorted(potential);
    AdmittedSound(Collected(fetch, ConfiguredSources()), IdsOf(alreadyPublished));
    SortByViewsKeepsDistinctIds(potential);
    forall c | c in eligible ensures Eligible(c) && c.id !in alreadyPublished {
      assert c in multiset(eligible);
    }
  }

  /**
   * The eligible list holds the id of every eligible clip any source query
   * returned, unless that id was published today.
   */
  lemma EligibleListComplete(fetch: Endpoint, alreadyPublished: seq<ClipId>, j: nat, i: nat)
    requires j < |ConfiguredSources()| && i < |FetchedClips(fetch(j, ConfiguredSources()[j]))|
    requires Eligible(FetchedClips(fetch(j, ConfiguredSources()[j]))[i])
    requires FetchedClips(fetch(j, ConfiguredSources()[j]))[i].id !in alreadyPublished
    ensures FetchedClips(fetch(j, ConfiguredSources()[j]))[i].id
            in IdSet(SortByViews(Admitted(Collected(fetch, ConfiguredSources()), IdsOf(alreadyPublished))))
  {
    var all := Collected(fetch, ConfiguredSources());
    var published := IdsOf(alreadyPublished);
    var c := FetchedClips(fetch(j, ConfiguredSources()[j]))[i];
    CollectedHasEverySource(fetch, ConfiguredSources(), j, i);
    var k :| 0 <= k < |all| && all[k] == c;
    AdmittedComplete(all, published, k);
    var admitted := Admitted(all, published);
    var y :| y in admitted && y.id == c.id;
    SortByViewsPermutes(admitted);
    assert y in multiset(SortByViews(admitted));
  }
}
