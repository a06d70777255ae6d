/**
 * The publication history: a map from a calendar date (ISO form, a
 * parameter here) to the list of records published that day. The runner
 * reads today's clip ids from it and appends a record after each upload
 * that returned a video id.
 */
module History {
  import opened Base
  import opened Clips

  /** A calendar date in ISO form, such as "2024-05-17". */
  type Date = string

  /** One publication: the Twitch clip, the YouTube short it became, and when. */
  datatype Entry = Entry(twitchClipId: ClipId, youtubeShortId: string, timestamp: string)

  type Buckets = map<Date, seq<Entry>>

  /** The records of date `d`; a date without a key has none. */
  function Bucket(h: Buckets, d: Date): seq<Entry>
  {
    if d in h then h[d] else []
  }

  /** The Twitch clip ids published on `today`, in publication order. */
  function TodayPublishedIds(h: Buckets, today: Date): seq<ClipId>
  {
    seq(|Bucket(h, today)|, i requires 0 <= i < |Bucket(h, today)| => Bucket(h, today)[i].twitchClipId)
  }

  /**
   * The history after recording a publication for `today`: the bucket is
   * created when missing, and the record is appended unless today's bucket
   * already names the clip.
   */
  function WithRecord(h: Buckets, today: Date, clipId: ClipId, youtubeId: string, timestamp: string): Buckets
  {
    var b := Bucket(h, today);
    if exists e :: e in b && e.twitchClipId == clipId then h[today := b]
    else h[today := b + [Entry(clipId, youtubeId, timestamp)]]
  }

  lemma IdInBucket(h: Buckets, today: Date, clipId: ClipId)
    ensures clipId in TodayPublishedIds(h, today) <==> exists e :: e in Bucket(h, today) && e.twitchClipId == clipId
  {
    var b := Bucket(h, today);
    var ids := TodayPublishedIds(h, today);
    if clipId in ids {
      var i :| 0 <= i < |ids| && ids[i] == clipId;
      assert b[i] in b;
    }
    if exists e :: e in b && e.twitchClipId == clipId {
      var e :| e in b && e.twitchClipId == clipId;
      var i :| 0 <= i < |b| && b[i] == e;
      assert ids[i] == clipId;
    }
  }

  /** Recording a clip already published today changes nothing but the bucket's existence. */
  lemma AddExistingIsNoOp(h: Buckets, today: Date, clipId: ClipId, youtubeId: string, timestamp: string)
    requires clipId in TodayPublishedIds(h, today)
    ensures WithRecord(h, today, clipId, youtubeId, timestamp) == h
  {
    IdInBucket(h, today, clipId);
  }

  /**
   * Recording a new clip appends exactly one record at the end of today's
   * bucket and leaves every other date as it was.
   */
  lemma AddNewAppends(h: Buckets, today: Date, clipId: ClipId, youtubeId: string, timestamp: string)
    requires clipId !in TodayPublishedIds(h, today)
    ensures var r := WithRecord(h, today, clipId, youtubeId, timestamp);
            && today in r
            && r[today] == Bucket(h, today) + [Entry(clipId, youtubeId, timestamp)]
            && r.Keys == h.Keys + {today}
            && forall d :: d in h && d != today ==> r[d] == h[d]
  {
    IdInBucket(h, today, clipId);
  }

  /** Today's ids after recording `clipId`: unchanged if it was there, else `clipId` appended. */
  lemma TodayIdsAfterAdd(h: Buckets, today: Date, clipId: ClipId, youtubeId: string, timestamp: string)
    ensures TodayPublishedIds(WithRecord(h, today, clipId, youtubeId, timestamp), today)
            == if clipId in TodayPublishedIds(h, today) then TodayPublishedIds(h, today)
               else TodayPublishedIds(h, today) + [clipId]
  {
    IdInBucket(h, today, clipId);
    var ids := TodayPublishedIds(h, today);
    var after := TodayPublishedIds(WithRecord(h, today, clipId, youtubeId, timestamp), today);
    if clipId !in ids {
      assert |after| == |ids| + 1;
      assert forall i :: 0 <= i < |ids| ==> after[i] == ids[i];
      assert after == ids + [clipId];
    } else {
      assert after == ids;
    }
  }

  /** Recording keeps today's ids pairwise distinct. */
  lemma AddKeepsDistinct(h: Buckets, today: Date, clipId: ClipId, youtubeId: string, timestamp: string)
    requires Distinct(TodayPublishedIds(h, today))
    ensures Distinct(TodayPublishedIds(WithRecord(h, today, clipId, youtubeId, timestamp), today))
  {
    TodayIdsAfterAdd(h, today, clipId, youtubeId, timestamp);
    var ids := TodayPublishedIds(h, today);
    if clipId !in ids {
      var after := ids + [clipId];
      forall i, j | 0 <= i < j < |after| ensures after[i] != after[j] {
        if j == |ids| {
          assert after[i] == ids[i];
        }
      }
    }
  }

  // ------------------------------------------------------------ the store

  /** What reading the history file produced. */
  datatype StoredHistory =
    | NoFile               // the file does not exist
    | Corrupt              // the file is not valid JSON
    | Unreadable           // any other error while reading
    | Parsed(buckets: Buckets)

  /** A missing, corrupt or unreadable history file reads as an empty history. */
  function LoadedBuckets(stored: StoredHistory): Buckets
  {
    match stored
    case Parsed(b) => b
    case _ => map[]
  }

  /** The history the runner holds in memory and updates in place. */
  class HistoryStore {
    var buckets: Buckets

    constructor Load(stored: StoredHistory)
      ensures buckets == LoadedBuckets(stored)
    {
      buckets := LoadedBuckets(stored);
    }

    /** Records the publication of `clipId` as `youtubeId` for `today`. */
    method AddToHistory(today: Date, clipId: ClipId, youtubeId: string, timestamp: string)
      modifies this
      ensures buckets == WithRecord(old(buckets), today, clipId, youtubeId, timestamp)
      ensures TodayPublishedIds(buckets, today)
              == if clipId in TodayPublishedIds(old(buckets), today) then TodayPublishedIds(old(buckets), today)
                 else TodayPublishedIds(old(buckets), today) + [clipId]
    {
      TodayIdsAfterAdd(buckets, today, clipId, youtubeId, timestamp);
      if today !in buckets {
        buckets := buckets[today := []];
      }
      var bucket := buckets[today];
      var present := false;
      var i := 0;
      while i < |bucket|
        invariant 0 <= i <= |bucket|
        invariant present <==> exists k :: 0 <= k < i && bucket[k].twitchClipId == clipId
      {
        if bucket[i].twitchClipId == clipId {
          present := true;
        }
        i := i + 1;
      }
      if !present {
        buckets := buckets[today := bucket + [Entry(clipId, youtubeId, timestamp)]];
      }
    }
  }
}
