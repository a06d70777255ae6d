/**
 * The YouTube metadata built for a selected clip: title, description, tags
 * and the fixed publication settings. The current date, already formatted,
 * and Python's character classes are parameters.
 */
module Metadata {
  import opened Base
  import opened Text
  import opened Clips

  const DEFAULT_BROADCASTER_NAME: string := "Un streamer"
  const DEFAULT_GAME_NAME: string := "Gaming"
  const DEFAULT_CLIP_TITLE: string := "Un moment épique"
  const MAX_TITLE_LENGTH: nat := 100

  datatype VideoMetadata = VideoMetadata(
    title: string,
    description: string,
    tags: seq<string>,
    categoryId: string,
    privacyStatus: string,
    selfDeclaredMadeForKids: bool,
    embeddable: bool,
    license: string)

  /** A name read with a default: the default when the key is missing or null. */
  function NameOrDefault(f: Field, default: string): string
  {
    if f.Value? then f.s else default
  }

  /** The clip's title, or the default title when the key is missing; a null title is excluded. */
  function RawTitle(f: Field): string
    requires !f.Null?
  {
    if f.Value? then f.s else DEFAULT_CLIP_TITLE
  }

  // ------------------------------------------------------------------ title

  /**
   * The title cleaned for YouTube: only alphanumerics, whitespace and
   * `'-_!?.` are kept, then surrounding whitespace is removed. Every allowed
   * non-space character of the raw title survives, in order.
   */
  function CleanTitle(raw: string, ct: CharTable): (clean: string)
    ensures forall k :: 0 <= k < |clean| ==> Allowed(clean[k], ct)
    ensures clean != [] ==> !ct.isSpace(clean[0]) && !ct.isSpace(clean[|clean| - 1])
    ensures NonSpace(clean, ct) == NonSpace(KeepAllowed(raw, ct), ct)
    ensures forall c :: Allowed(c, ct) && !ct.isSpace(c) ==> multiset(clean)[c] == multiset(raw)[c]
  {
    var kept := KeepAllowed(raw, ct);
    StrippedKeepsAllowed(raw, kept, Strip(kept, ct), |kept| - |StripStart(kept, ct)|, ct);
    Strip(kept, ct)
  }

  /**
   * Whitespace removed around the filtered title leaves only allowed
   * characters, and every allowed non-space character of the raw title.
   */
  lemma StrippedKeepsAllowed(raw: string, kept: string, r: string, lead: nat, ct: CharTable)
    requires forall k :: 0 <= k < |kept| ==> Allowed(kept[k], ct)
    requires AllowedCounts(kept, raw, ct)
    requires SpaceAround(kept, r, lead, ct)
    ensures forall k :: 0 <= k < |r| ==> Allowed(r[k], ct)
    ensures NonSpace(r, ct) == NonSpace(kept, ct)
    ensures forall c :: Allowed(c, ct) && !ct.isSpace(c) ==> multiset(r)[c] == multiset(raw)[c]
  {
    AllowedInSlice(kept, r, lead, ct);
    SpaceAroundKeepsNonSpace(kept, r, lead, ct);
  }

  lemma AllowedInSlice(s: string, r: string, lead: nat, ct: CharTable)
    requires lead + |r| <= |s| && r == s[lead..lead + |r|]
    requires forall k :: 0 <= k < |s| ==> Allowed(s[k], ct)
    ensures forall k :: 0 <= k < |r| ==> Allowed(r[k], ct)
  {
    forall k | 0 <= k < |r| ensures Allowed(r[k], ct) {
      assert r[k] == s[lead + k];
    }
  }

  function FullTitle(clean: string, broadcaster: string, todayDate: string): string {
    clean + " par @" + broadcaster + " | The Clips Moments - " + todayDate
  }

  /**
   * A title longer than 100 characters becomes its first 97 characters,
   * stripped, followed by "..."; a shorter one is kept.
   */
  function TruncateTitle(t: string, ct: CharTable): (r: string)
    ensures |r| <= MAX_TITLE_LENGTH
    ensures |t| <= MAX_TITLE_LENGTH ==> r == t
    ensures |t| > MAX_TITLE_LENGTH ==>
      && |r| >= 3 && r[|r| - 3..] == "..."
      && r[..|r| - 3] == Strip(t[..97], ct)
  {
    if |t| > MAX_TITLE_LENGTH then
      var r := Strip(t[..97], ct) + "...";
      assert r[..|r| - 3] == Strip(t[..97], ct);
      r
    else t
  }

  // ------------------------------------------------------------ description

  /** A name with its ' ' characters removed, as used in the channel link and the hashtags. */
  function WithoutSpaces(name: string): (r: string)
    ensures ' ' !in r
    ensures SameCountsOutside(r, name, " ")
    ensures |r| == |name| - multiset(name)[' ']
  {
    ReplaceChar(name, ' ', "")
  }

  /** The clip URL as the description prints it: "N/A" when missing, "None" when null. */
  function UrlText(f: Field): (u: string)
    ensures f.Value? ==> u == f.s
  {
    match f
    case Absent => "N/A"
    case Null => "None"
    case Value(s) => s
  }

  /**
   * A fetched clip's link line never reads "N/A": the collector stores a
   * missing `url` as null, which prints as "None".
   */
  lemma FetchedLinkLine(raw: RawClip)
    ensures UrlText(ToClip(raw).url) == (if raw.url.Value? then raw.url.s else "None")
    ensures UrlText(ToClip(raw).url) != "N/A" || raw.url == Value("N/A")
  {
    RecordHasEveryKey(raw);
  }

  /**
   * The default title never applies to a fetched clip: the collector stores
   * a missing `title` as null, which the metadata step cannot take, and a
   * present one is used as it is.
   */
  lemma FetchedTitleNeverDefault(raw: RawClip)
    ensures ToClip(raw).title.Null? <==> !raw.title.Value?
    ensures raw.title.Value? ==> RawTitle(ToClip(raw).title) == raw.title.s
  {
    RecordHasEveryKey(raw);
  }

  /** The description's first line, naming the broadcaster. */
  function Opening(broadcaster: string): string {
    "Les meilleurs moments de Twitch par " + broadcaster + " !\n"
  }

  /** The description: the opening line, then the clip's details, links and hashtags. */
  function Description(broadcaster: string, game: string, rawTitle: string, url: Field): string {
    Opening(broadcaster) + Details(broadcaster, game, rawTitle, url)
  }

  /** Everything after the opening line: the raw title, the channel and clip links, the hashtags. */
  function Details(broadcaster: string, game: string, rawTitle: string, url: Field): string {
    "Ce Short présente le clip le plus vu du jour : \"" + rawTitle + "\"\n"
    + "\n"
    + "N'oubliez pas de vous abonner pour plus de Shorts Twitch chaque jour !\n"
    + "Chaîne de " + broadcaster + " : https://www.twitch.tv/" + WithoutSpaces(broadcaster) + "\n"
    + "Lien direct vers le clip : " + UrlText(url) + "\n"
    + "\n"
    + "#Twitch #Shorts #ClipsTwitch #Gaming #" + WithoutSpaces(broadcaster) + " #" + WithoutSpaces(game) + "\n"
  }

  /**
   * The description of a clip's metadata (see `GenerateYoutubeMetadata`)
   * opens by naming its broadcaster, or "Un streamer" when the name is
   * missing or null.
   */
  lemma DescriptionOpening(clip: Clip, game: string, rawTitle: string)
    ensures var d := Description(NameOrDefault(clip.broadcasterName, DEFAULT_BROADCASTER_NAME), game, rawTitle, clip.url);
            && (clip.broadcasterName.Value? ==> Opening(clip.broadcasterName.s) <= d)
            && (!clip.broadcasterName.Value? ==> Opening(DEFAULT_BROADCASTER_NAME) <= d)
  {
    OpeningIsPrefix(NameOrDefault(clip.broadcasterName, DEFAULT_BROADCASTER_NAME), game, rawTitle, clip.url);
  }

  lemma OpeningIsPrefix(broadcaster: string, game: string, rawTitle: string, url: Field)
    ensures Opening(broadcaster) <= Description(broadcaster, game, rawTitle, url)
  {
    var o, d := Opening(broadcaster), Details(broadcaster, game, rawTitle, url);
    assert (o + d)[..|o|] == o;
  }

  // ------------------------------------------------------------------- tags

  function RawTags(broadcaster: string, game: string): seq<string> {
    [ "Twitch", "Shorts", "ClipsTwitch", "MeilleursMomentsTwitch",
      "Gaming", "Gameplay", "Drôle", "Épique", "Highlight",
      broadcaster, game,
      "TwitchFr", "ShortsGaming" ]
  }

  /** `tag` is `s` lower-cased, position by position, with '-' where the lower case is ' '. */
  predicate DashedLower(tag: string, s: string, ct: CharTable) {
    && |tag| == |s|
    && forall k :: 0 <= k < |s| ==> tag[k] == if ct.lower(s[k]) == ' ' then '-' else ct.lower(s[k])
  }

  /** A tag stripped, then lower-cased, then with every ' ' turned into '-'. */
  function NormalizeTag(t: string, ct: CharTable): (tag: string)
    ensures |tag| == |Strip(t, ct)|
    ensures ' ' !in tag
    ensures LowerIsStable(ct) ==> IsLower(tag, ct)
  {
    var lowered := Lower(Strip(t, ct), ct);
    var r := ReplaceChar(lowered, ' ', "-");
    forall k | 0 <= k < |r|
      ensures r[k] == if lowered[k] == ' ' then '-' else lowered[k]
    {
      ReplaceCharAt(lowered, ' ', '-', k);
    }
    r
  }

  /**
   * Position by position, a normalised tag is the lower case of the
   * stripped tag, with '-' where that lower case is ' '.
   */
  lemma NormalizeTagPositions(t: string, ct: CharTable)
    ensures DashedLower(NormalizeTag(t, ct), Strip(t, ct), ct)
  {
    var lowered := Lower(Strip(t, ct), ct);
    forall k | 0 <= k < |lowered|
      ensures NormalizeTag(t, ct)[k] == if lowered[k] == ' ' then '-' else lowered[k]
    {
      ReplaceCharAt(lowered, ' ', '-', k);
    }
  }

  /** The normalised form of every raw tag that is not blank, in order. */
  function NormalizedTags(raw: seq<string>, ct: CharTable): (tags: seq<string>)
    ensures forall x :: x in tags ==> exists t :: t in raw && Strip(t, ct) != [] && x == NormalizeTag(t, ct)
    ensures forall t :: t in raw && Strip(t, ct) != [] ==> NormalizeTag(t, ct) in tags
    decreases |raw|
  {
    if raw == [] then []
    else
      var before := NormalizedTags(raw[..|raw| - 1], ct);
      var t := raw[|raw| - 1];
      assert forall u :: u in raw <==> u in raw[..|raw| - 1] || u == t;
      before + (if Strip(t, ct) != [] then [NormalizeTag(t, ct)] else [])
  }

  /**
   * The base tags: the normalised raw tags without repetitions. Python keeps
   * them in a set, whose order is unspecified; here the first occurrence is
   * kept, and every property below is stated without reference to order.
   */
  function BaseTags(broadcaster: string, game: string, ct: CharTable): seq<string> {
    Dedup(NormalizedTags(RawTags(broadcaster, game), ct))
  }

  /**
   * Base tags are distinct, non-empty, free of ' ' and lower case, and they
   * are exactly the normalised forms of the non-blank raw tags.
   */
  lemma BaseTagsWellFormed(broadcaster: string, game: string, ct: CharTable)
    requires LowerIsStable(ct)
    ensures var tags := BaseTags(broadcaster, game, ct);
            && Distinct(tags)
            && (forall x :: x in tags ==> x != [] && ' ' !in x && IsLower(x, ct))
            && (forall t :: t in RawTags(broadcaster, game) && Strip(t, ct) != [] ==> NormalizeTag(t, ct) in tags)
            && (forall x :: x in tags ==>
                  exists t :: t in RawTags(broadcaster, game) && Strip(t, ct) != [] && x == NormalizeTag(t, ct))
  {
    var tags := BaseTags(broadcaster, game, ct);
    forall x | x in tags ensures x != [] && ' ' !in x && IsLower(x, ct) {
      var t :| t in RawTags(broadcaster, game) && Strip(t, ct) != [] && x == NormalizeTag(t, ct);
    }
  }

  /** The tag a title word contributes: the word stripped and lower-cased. */
  function WordTag(w: string, ct: CharTable): string {
    Lower(Strip(w, ct), ct)
  }

  /**
   * `tags` followed by each title word's tag that is longer than two
   * characters and not yet present, in title order.
   */
  function ExtendedTags(tags: seq<string>, words: seq<string>, ct: CharTable): (r: seq<string>)
    ensures |tags| <= |r| && r[..|tags|] == tags
    decreases |words|
  {
    if words == [] then tags
    else
      var before := ExtendedTags(tags, words[..|words| - 1], ct);
      var w := WordTag(words[|words| - 1], ct);
      if |w| > 2 && w !in before then before + [w] else before
  }

  /** Extending keeps distinct tags distinct: a word's tag is added only when it is absent. */
  lemma {:induction false} ExtendedTagsDistinct(tags: seq<string>, words: seq<string>, ct: CharTable)
    requires Distinct(tags)
    ensures Distinct(ExtendedTags(tags, words, ct))
    decreases |words|
  {
    if words != [] {
      ExtendedTagsDistinct(tags, words[..|words| - 1], ct);
    }
  }

  /** Every title word whose tag is longer than two characters ends up among the tags. */
  lemma {:induction false} ExtendedTagsHasLongWords(tags: seq<string>, words: seq<string>, ct: CharTable)
    ensures forall w :: w in words && |WordTag(w, ct)| > 2 ==> WordTag(w, ct) in ExtendedTags(tags, words, ct)
    decreases |words|
  {
    if words != [] {
      var init := words[..|words| - 1];
      ExtendedTagsHasLongWords(tags, init, ct);
      assert forall u :: u in words ==> u in init || u == words[|words| - 1];
    }
  }

  /** `x` is the tag of one of `words`. */
  ghost predicate TagOfWord(x: string, words: seq<string>, ct: CharTable) {
    exists w :: w in words && x == WordTag(w, ct)
  }

  /** Every tag beyond `tags` is the tag of some title word, longer than two characters. */
  lemma {:induction false} ExtendedTagsOnlyWords(tags: seq<string>, words: seq<string>, ct: CharTable)
    ensures forall k :: |tags| <= k < |ExtendedTags(tags, words, ct)| ==>
              |ExtendedTags(tags, words, ct)[k]| > 2 && TagOfWord(ExtendedTags(tags, words, ct)[k], words, ct)
    decreases |words|
  {
    if words != [] {
      var init, last := words[..|words| - 1], words[|words| - 1];
      var before := ExtendedTags(tags, init, ct);
      var r := ExtendedTags(tags, words, ct);
      var w := WordTag(last, ct);
      ExtendedTagsOnlyWords(tags, init, ct);
      assert last in words;
      forall k | |tags| <= k < |before| ensures TagOfWord(before[k], words, ct) {
        assert TagOfWord(before[k], init, ct);
        var u :| u in init && before[k] == WordTag(u, ct);
        assert u in words;
      }
      if |w| > 2 && w !in before {
        assert r == before + [w];
        assert TagOfWord(w, words, ct);
      } else {
        assert r == before;
      }
    }
  }

  /** The title words never displace a base tag: every non-blank raw tag, normalised, is among the final tags. */
  lemma ExtendedTagsKeepBaseTags(raw: seq<string>, words: seq<string>, ct: CharTable)
    ensures forall t :: t in raw && Strip(t, ct) != [] ==>
              NormalizeTag(t, ct) in ExtendedTags(Dedup(NormalizedTags(raw, ct)), words, ct)
  {
    var base := Dedup(NormalizedTags(raw, ct));
    PrefixMembers(base, ExtendedTags(base, words, ct));
    forall t | t in raw && Strip(t, ct) != [] ensures NormalizeTag(t, ct) in base {
      assert NormalizeTag(t, ct) in NormalizedTags(raw, ct);
    }
  }

  /**
   * The final tags are distinct; they hold the tag of every long title word,
   * the normalised form of every non-blank raw tag, and so the broadcaster's
   * and the game's own tags when those are not blank.
   */
  lemma FinalTags(broadcaster: string, game: string, words: seq<string>, ct: CharTable)
    ensures var tags := ExtendedTags(BaseTags(broadcaster, game, ct), words, ct);
            && Distinct(tags)
            && (forall w :: w in words && |WordTag(w, ct)| > 2 ==> WordTag(w, ct) in tags)
            && (forall t :: t in RawTags(broadcaster, game) && Strip(t, ct) != [] ==> NormalizeTag(t, ct) in tags)
            && (Strip(broadcaster, ct) != [] ==> NormalizeTag(broadcaster, ct) in tags)
            && (Strip(game, ct) != [] ==> NormalizeTag(game, ct) in tags)
  {
    var raw := RawTags(broadcaster, game);
    ExtendedTagsDistinct(BaseTags(broadcaster, game, ct), words, ct);
    ExtendedTagsHasLongWords(BaseTags(broadcaster, game, ct), words, ct);
    ExtendedTagsKeepBaseTags(raw, words, ct);
    assert raw[9] == broadcaster && raw[10] == game;
  }

  /**
   * The tags of a clip's metadata (see `GenerateYoutubeMetadata`) hold the
   * broadcaster's tag, or that of "Un streamer" when the name is missing or
   * null, and likewise the game's tag or that of "Gaming", unless blank.
   */
  lemma NameTagsOfClip(clip: Clip, words: seq<string>, ct: CharTable)
    ensures var tags := ExtendedTags(BaseTags(NameOrDefault(clip.broadcasterName, DEFAULT_BROADCASTER_NAME),
                                              NameOrDefault(clip.gameName, DEFAULT_GAME_NAME), ct), words, ct);
            && (clip.broadcasterName.Value? && Strip(clip.broadcasterName.s, ct) != [] ==>
                  NormalizeTag(clip.broadcasterName.s, ct) in tags)
            && (!clip.broadcasterName.Value? && Strip(DEFAULT_BROADCASTER_NAME, ct) != [] ==>
                  NormalizeTag(DEFAULT_BROADCASTER_NAME, ct) in tags)
            && (clip.gameName.Value? && Strip(clip.gameName.s, ct) != [] ==> NormalizeTag(clip.gameName.s, ct) in tags)
            && (!clip.gameName.Value? && Strip(DEFAULT_GAME_NAME, ct) != [] ==> NormalizeTag(DEFAULT_GAME_NAME, ct) in tags)
  {
    FinalTags(NameOrDefault(clip.broadcasterName, DEFAULT_BROADCASTER_NAME),
              NameOrDefault(clip.gameName, DEFAULT_GAME_NAME), words, ct);
  }

  /** Appends the tags of the title's words, skipping short words and tags already present. */
  method ExtendTagsWithTitleWords(tags: seq<string>, words: seq<string>, ct: CharTable) returns (r: seq<string>)
    ensures r == ExtendedTags(tags, words, ct)
  {
    r := tags;
    var i := 0;
    while i < |words|
      invariant 0 <= i <= |words|
      invariant r == ExtendedTags(tags, words[..i], ct)
    {
      var cleaned := Lower(Strip(words[i], ct), ct);
      assert words[..i + 1][..i] == words[..i];
      if |cleaned| > 2 && cleaned !in r {
        r := r + [cleaned];
      }
      i := i + 1;
    }
    assert words[..i] == words;
  }

  // ---------------------------------------------------------------- metadata

  /** The metadata for a clip whose title is not null, on the day `todayDate`. */
  method GenerateYoutubeMetadata(clip: Clip, todayDate: string, ct: CharTable) returns (m: VideoMetadata)
    requires !clip.title.Null?
    ensures var broadcaster := NameOrDefault(clip.broadcasterName, DEFAULT_BROADCASTER_NAME);
            var game := NameOrDefault(clip.gameName, DEFAULT_GAME_NAME);
            var clean := CleanTitle(RawTitle(clip.title), ct);
            && m.title == TruncateTitle(FullTitle(clean, broadcaster, todayDate), ct)
            && m.description == Description(broadcaster, game, RawTitle(clip.title), clip.url)
            && m.tags == ExtendedTags(BaseTags(broadcaster, game, ct), Split(clean, ct), ct)
    ensures |m.title| <= MAX_TITLE_LENGTH
    ensures Distinct(m.tags)
    ensures forall w :: w in Split(CleanTitle(RawTitle(clip.title), ct), ct) && |WordTag(w, ct)| > 2 ==> WordTag(w, ct) in m.tags
    ensures forall t ::
              t in RawTags(NameOrDefault(clip.broadcasterName, DEFAULT_BROADCASTER_NAME),
                           NameOrDefault(clip.gameName, DEFAULT_GAME_NAME)) && Strip(t, ct) != []
              ==> NormalizeTag(t, ct) in m.tags
    ensures m.categoryId == "20" && m.privacyStatus == "public" && m.license == "youtube"
    ensures !m.selfDeclaredMadeForKids && m.embeddable
  {
    var broadcaster := NameOrDefault(clip.broadcasterName, DEFAULT_BROADCASTER_NAME);
    var game := NameOrDefault(clip.gameName, DEFAULT_GAME_NAME);
    var rawTitle := RawTitle(clip.title);
    var clean := CleanTitle(rawTitle, ct);
    var title := TruncateTitle(FullTitle(clean, broadcaster, todayDate), ct);
    var description := Description(broadcaster, game, rawTitle, clip.url);
    var tags := ExtendTagsWithTitleWords(BaseTags(broadcaster, game, ct), Split(clean, ct), ct);
    FinalTags(broadcaster, game, Split(clean, ct), ct);
    m := VideoMetadata(title, description, tags, "20", "public", false, true, "youtube");
  }
}
