/** The YouTube video service (`youtube_video`): takes the videos of one
    day's Google Ads report that are not yet in the video table, looks them
    up with the YouTube API in requests of at most fifty, and writes one
    fifteen-column row per video. */
module YouTubeVideo {
  import opened Wrappers
  import opened Text
  import opened Chunking
  import opened Requests
  import opened VideoReport

  /** The most videos one YouTube request may name. */
  const ChunkSize: nat := 50

  /** `message_schema`. */
  const MessageSchema: Schema := Schema([("date_partition", TString)], ["date_partition"])

  /** `_split_list_to_chunks(data, 50)`: `np.array_split` into
      `(n + 49) // 50` chunks. */
  function SplitToChunks(ids: seq<string>): (r: seq<seq<string>>)
    requires |ids| >= 1
    ensures |r| == (|ids| + ChunkSize - 1) / ChunkSize
    ensures forall i :: 0 <= i < |r| ==> 1 <= |r[i]| <= ChunkSize
    ensures Flatten(r) == ids
  {
    BalancedChunks(ids, ChunkSize)
  }

  // ---------------------------------------------------------------------
  // Reading a response
  // ---------------------------------------------------------------------

  /** The parts of a `videos.list` item the service reads. */
  datatype VideoSnippet = VideoSnippet(
    title: Option<string>,
    description: Option<string>,
    publishedAt: Option<string>,
    channelId: Option<string>,
    categoryId: Option<string>,
    tags: Option<seq<string>>,
    defaultLanguage: Option<string>)

  datatype ContentRating = ContentRating(ytRating: Option<string>)

  datatype ContentDetails = ContentDetails(
    duration: Option<string>,
    definition: Option<string>,
    licensedContent: Option<bool>,
    contentRating: Option<ContentRating>)

  datatype VideoStatistics = VideoStatistics(
    viewCount: Option<string>,
    likeCount: Option<string>,
    commentCount: Option<string>)

  datatype Item = Item(
    id: Option<string>,
    snippet: Option<VideoSnippet>,
    contentDetails: Option<ContentDetails>,
    statistics: Option<VideoStatistics>)

  datatype YouTubeResponse = YouTubeResponse(totalResults: int, items: seq<Item>)

  /** One row, columns in the declared order. `publishedAt` keeps the
      text `pd.Timestamp` reads (`None` for `NaT`); text it cannot parse,
      on which it raises, is not told apart. `licensedContent` is `None`
      where the code stores `''`. */
  datatype VideoRow = VideoRow(
    videoId: Option<string>,
    title: string,
    description: Option<string>,
    publishedAt: Option<string>,
    channelId: Option<string>,
    categoryId: int,
    tags: Option<seq<string>>,
    defaultLanguage: string,
    duration: string,
    definition: string,
    licensedContent: Option<bool>,
    ytContentRating: string,
    viewCount: int,
    likeCount: int,
    commentCount: int)

  /** `int(d.get(key, '0'))`: an absent number is 0. */
  function IntOrZero(v: Option<string>): (r: Result<int>)
    ensures v.None? ==> r == Ok(0)
    ensures v.Some? ==> (r.Ok? <==> ParseInt(v.value).Some?)
    ensures v.Some? && r.Ok? ==> Some(r.value) == ParseInt(v.value)
  {
    match ParseInt(v.GetOr("0"))
    case Some(n) => Ok(n)
    case None => Err("ValueError")
  }

  /** One video's row, its cells read left to right. A missing
      `snippet`, `contentDetails` or `statistics` raises `KeyError`, a
      missing `contentRating` `AttributeError`, a count that is not an
      integer `ValueError`. */
  function VideoRowOf(item: Item): (r: Result<VideoRow>)
    ensures item.snippet.None? ==> r == Err("KeyError")
    ensures r.Ok? <==> (item.snippet.Some? && item.contentDetails.Some? && item.statistics.Some?
      && item.contentDetails.value.contentRating.Some?
      && IntOrZero(item.snippet.value.categoryId).Ok?
      && IntOrZero(item.statistics.value.viewCount).Ok?
      && IntOrZero(item.statistics.value.likeCount).Ok?
      && IntOrZero(item.statistics.value.commentCount).Ok?)
    ensures r.Ok? ==> (
      var sn := item.snippet.value;
      var cd := item.contentDetails.value;
      var st := item.statistics.value;
      && r.value.videoId == item.id
      && r.value.title == sn.title.GetOr("")
      && r.value.defaultLanguage == sn.defaultLanguage.GetOr("")
      && r.value.duration == cd.duration.GetOr("")
      && r.value.definition == cd.definition.GetOr("")
      && r.value.licensedContent == cd.licensedContent
      && r.value.ytContentRating == cd.contentRating.value.ytRating.GetOr("")
      && IntOrZero(sn.categoryId) == Ok(r.value.categoryId)
      && IntOrZero(st.viewCount) == Ok(r.value.viewCount)
      && IntOrZero(st.likeCount) == Ok(r.value.likeCount)
      && IntOrZero(st.commentCount) == Ok(r.value.commentCount))
  {
    if item.snippet.None? then Err("KeyError")
    else
      var sn := item.snippet.value;
      var category :- IntOrZero(sn.categoryId);
      if item.contentDetails.None? then Err("KeyError")
      else
        var cd := item.contentDetails.value;
        if cd.contentRating.None? then Err("AttributeError")
        else if item.statistics.None? then Err("KeyError")
        else
          var st := item.statistics.value;
          var views :- IntOrZero(st.viewCount);
          var likes :- IntOrZero(st.likeCount);
          var comments :- IntOrZero(st.commentCount);
          Ok(VideoRow(item.id, sn.title.GetOr(""), sn.description, sn.publishedAt, sn.channelId,
                      category, sn.tags, sn.defaultLanguage.GetOr(""), cd.duration.GetOr(""),
                      cd.definition.GetOr(""), cd.licensedContent, cd.contentRating.value.ytRating.GetOr(""),
                      views, likes, comments))
  }

  /** An item with every optional field absent gives the defaults: empty
      text and zero counts. */
  lemma DefaultsOfBareItem(id: Option<string>)
    ensures var bare := Item(id,
        Some(VideoSnippet(None, None, None, None, None, None, None)),
        Some(ContentDetails(None, None, None, Some(ContentRating(None)))),
        Some(VideoStatistics(None, None, None)));
      VideoRowOf(bare) == Ok(VideoRow(id, "", None, None, None, 0, None, "", "", "", None, "", 0, 0, 0))
  {
    assert ParseInt("0") == Some(0) by {
      assert AllDigits("0");
      assert DigitsValue("0") == 0;
    }
  }

  function RowsOf(items: seq<Item>): (r: Result<seq<VideoRow>>)
    ensures r.Ok? <==> forall i :: 0 <= i < |items| ==> VideoRowOf(items[i]).Ok?
    ensures r.Ok? ==> |r.value| == |items| && forall i :: 0 <= i < |items| ==> r.value[i] == VideoRowOf(items[i]).value
  {
    if |items| == 0 then Ok([])
    else
      var rest := RowsOf(items[1..]);
      assert forall i :: 1 <= i < |items| ==> items[i] == items[1..][i - 1];
      match VideoRowOf(items[0])
      case Err(e) => Err(e)
      case Ok(first) =>
        match rest
        case Err(e) => Err(e)
        case Ok(rows) => Ok([first] + rows)
  }

  /** `_process_youtube_videos_response`: nothing when `totalResults` is
      0, otherwise one row per item in the answer's order. */
  function ProcessResponse(response: YouTubeResponse): (r: Result<seq<VideoRow>>)
    ensures response.totalResults == 0 ==> r == Ok([])
    ensures response.totalResults != 0 ==>
      (r.Ok? <==> forall i :: 0 <= i < |response.items| ==> VideoRowOf(response.items[i]).Ok?)
    ensures response.totalResults != 0 && r.Ok? ==> (|r.value| == |response.items|
      && forall i :: 0 <= i < |r.value| ==> r.value[i] == VideoRowOf(response.items[i]).value)
  {
    if response.totalResults == 0 then Ok([]) else RowsOf(response.items)
  }

  // ---------------------------------------------------------------------
  // run
  // ---------------------------------------------------------------------

  /** The loop gathering the rows of all the chunks' answers, chunk after
      chunk, or the first answer's error; `FlatMapAll` states its meaning. */
  function AllRows(chunks: seq<seq<string>>, youtube: seq<string> -> YouTubeResponse): Result<seq<VideoRow>>
  {
    FlatMapAll(chunks, (chunk: seq<string>) => ProcessResponse(youtube(chunk)))
  }

  /** A written row with its load time. */
  datatype VideoRecord = VideoRecord(row: VideoRow, datetimeUpdated: string)

  datatype RunOutcome =
    | NoNewVideos
    | Fetched(requests: seq<seq<string>>, written: seq<VideoRecord>)

  /** The run asks for `requests`, fails exactly when an answer fails to
      convert, and otherwise writes the rows of every answer, in chunk
      order, each with the load time. */
  predicate Fetches(requests: seq<seq<string>>, youtube: seq<string> -> YouTubeResponse, now: string,
                    r: Result<RunOutcome>)
  {
    var rows := AllRows(requests, youtube);
    && (r.Err? <==> rows.Err?)
    && (r.Ok? ==>
          && r.value.Fetched?
          && r.value.requests == requests
          && rows.Ok?
          && |r.value.written| == |rows.value|
          && forall i :: 0 <= i < |rows.value| ==> r.value.written[i].row == rows.value[i])
  }

  /** `run(date_partition)`. `known` is the videos already in the table,
      `youtube(ids)` the answer to a request for `ids`, `now` the load
      time. No new video means no YouTube request; an empty result is not
      written. */
  function Run(day: string, report: seq<ReportRow>, known: set<string>,
               youtube: seq<string> -> YouTubeResponse, now: string): (r: Result<RunOutcome>)
    ensures |NewVideoIds(report, known, day)| == 0 <==> r == Ok(NoNewVideos)
    ensures r.Ok? && r.value.Fetched? ==>
      (Flatten(r.value.requests) == NewVideoIds(report, known, day)
      && (forall i :: 0 <= i < |r.value.requests| ==> 1 <= |r.value.requests[i]| <= ChunkSize)
      && forall i :: 0 <= i < |r.value.written| ==> r.value.written[i].datetimeUpdated == now)
    ensures |NewVideoIds(report, known, day)| > 0 ==>
      Fetches(SplitToChunks(NewVideoIds(report, known, day)), youtube, now, r)
  {
    var ids := NewVideoIds(report, known, day);
    if |ids| == 0 then Ok(NoNewVideos)
    else
      var requests := SplitToChunks(ids);
      var rows :- AllRows(requests, youtube);
      var written := seq(|rows|, i requires 0 <= i < |rows| => VideoRecord(rows[i], now));
      Ok(Fetched(requests, written))
  }

  /** `main(event, context)`: a message that does not match the schema
      raises; otherwise `run` on its `date_partition`. */
  function OnMessage(message: Json, report: seq<ReportRow>, known: set<string>,
                youtube: seq<string> -> YouTubeResponse, now: string): (r: Result<RunOutcome>)
    ensures Validate(message, MessageSchema).Some? ==> r.Err?
    ensures Validate(message, MessageSchema).None? ==>
      r == Run(RequiredString(message, MessageSchema, "date_partition"), report, known, youtube, now)
  {
    match Validate(message, MessageSchema)
    case Some(_) => Err("ValidationError")
    case None => Run(RequiredString(message, MessageSchema, "date_partition"), report, known, youtube, now)
  }
}
