/** The YouTube channel service (`youtube_channel`): takes the channels of a
    Google Ads report that are not yet in the channel table, looks them up
    with the YouTube API in requests of at most fifty, and writes one
    sanitised row per channel. */
module YouTubeChannel {
  import opened Wrappers
  import opened Text
  import opened Chunking
  import opened Requests

  /** The most channels one YouTube request may name. */
  const ChunkSize: nat := 50

  /** `CSV_PROBLEM_CHARACTERS_REGEX` at its default: an alternation of
      single characters, so `str.replace(..., '', regex=True)` deletes each. */
  const ProblemChars: set<char> := {'$', '"', '\'', '\r', '\n', '\t', ',', ';', ':'}

  /** The text before every clean topic name. */
  const WikiPrefix: string := "https://en.wikipedia.org/wiki/"

  /** `message_schema`. */
  const MessageSchema: Schema :=
    Schema([("customer_id", TString), ("blob_name", TString)], ["blob_name", "customer_id"])

  // ---------------------------------------------------------------------
  // Choosing the channels
  // ---------------------------------------------------------------------

  /** The channels of the report that the channel table does not hold yet. */
  function NewChannels(reportIds: seq<string>, known: set<string>): (r: set<string>)
    ensures forall c :: c in r <==> c in reportIds && c !in known
  {
    set c | c in reportIds && c !in known
  }

  /** `list(channel_ids)`: the members of a set in an order the set picks. */
  method ListOf(s: set<string>) returns (xs: seq<string>)
    ensures |xs| == |s|
    ensures forall x :: x in xs <==> x in s
    ensures forall i, j :: 0 <= i < j < |xs| ==> xs[i] != xs[j]
  {
    xs := [];
    var rest := s;
    while rest != {}
      invariant rest <= s
      invariant forall x :: x in xs <==> x in s && x !in rest
      invariant |xs| + |rest| == |s|
      invariant forall i, j :: 0 <= i < j < |xs| ==> xs[i] != xs[j]
      decreases |rest|
    {
      var x :| x in rest;
      xs := xs + [x];
      rest := rest - {x};
    }
  }

  // ---------------------------------------------------------------------
  // Splitting into requests
  // ---------------------------------------------------------------------

  /** `split_list_to_chunks(lst, 50)`: `np.array_split` into
      `math.ceil(n / 50)` chunks. */
  function SplitToChunks(ids: seq<string>): (r: seq<seq<string>>)
    requires |ids| >= 1
    ensures |r| == CeilDiv(|ids|, ChunkSize)
    ensures forall i :: 0 <= i < |r| ==> 1 <= |r[i]| <= ChunkSize
    ensures Flatten(r) == ids
  {
    BalancedChunks(ids, ChunkSize)
  }

  // ---------------------------------------------------------------------
  // Reading a response
  // ---------------------------------------------------------------------

  /** The fields of a channel in a `channels.list` answer. Counts come as
      text. `topicCategories` is `None` when `topicDetails` is absent or
      empty, or has no `topicCategories`. */
  datatype Statistics = Statistics(viewCount: Option<string>, videoCount: Option<string>, subscriberCount: Option<string>)
  datatype Snippet = Snippet(title: Option<string>, country: Option<string>)
  datatype Item = Item(
    id: Option<string>,
    statistics: Option<Statistics>,
    snippet: Option<Snippet>,
    topicCategories: Option<seq<string>>)

  datatype YouTubeResponse = YouTubeResponse(totalResults: int, items: seq<Item>)

  /** One row of `process_youtube_response`. `topicCategories` is `None`
      where the code stores `''`. */
  datatype Row = Row(
    channelId: Option<string>,
    viewCount: Option<string>,
    videoCount: Option<string>,
    subscriberCount: Option<string>,
    title: string,
    country: string,
    topicCategories: Option<seq<string>>,
    cleanTopics: seq<string>)

  /** `topic.split('https://en.wikipedia.org/wiki/')[1]`, `IndexError`
      when the prefix does not occur. */
  function CleanTopic(topic: string): Result<string>
  {
    match SplitSecond(topic, WikiPrefix)
    case None => Err("IndexError")
    case Some(name) => Ok(name)
  }

  /** A topic URL gives back its page name. */
  lemma CleanTopicOfUrl(name: string)
    requires forall j :: 0 <= j <= |name| - |WikiPrefix| ==> !OccursAt(name, WikiPrefix, j)
    ensures CleanTopic(WikiPrefix + name) == Ok(name)
  {
    SplitSecondAfterPrefix(WikiPrefix, name);
  }

  /** The clean names of a run of topics, in order. */
  function CleanTopics(topics: seq<string>): (r: Result<seq<string>>)
    ensures r.Ok? <==> forall i :: 0 <= i < |topics| ==> CleanTopic(topics[i]).Ok?
    ensures r.Ok? ==> |r.value| == |topics| && forall i :: 0 <= i < |topics| ==> r.value[i] == CleanTopic(topics[i]).value
  {
    if |topics| == 0 then Ok([])
    else
      var rest := CleanTopics(topics[1..]);
      assert forall i :: 1 <= i < |topics| ==> topics[i] == topics[1..][i - 1];
      match CleanTopic(topics[0])
      case Err(e) => Err(e)
      case Ok(first) =>
        match rest
        case Err(e) => Err(e)
        case Ok(names) => Ok([first] + names)
  }

  /** One channel's row. A missing `statistics` or `snippet` raises
      `AttributeError`. */
  function ChannelRow(item: Item): (r: Result<Row>)
    ensures r.Ok? <==> (item.statistics.Some? && item.snippet.Some?
      && CleanTopics(item.topicCategories.GetOr([])).Ok?)
    ensures r.Ok? ==> (r.value.channelId == item.id
      && r.value.title == item.snippet.value.title.GetOr("")
      && r.value.country == item.snippet.value.country.GetOr("")
      && r.value.topicCategories == item.topicCategories
      && |r.value.cleanTopics| == |item.topicCategories.GetOr([])|)
  {
    var clean :- CleanTopics(item.topicCategories.GetOr([]));
    match (item.statistics, item.snippet)
    case (Some(st), Some(sn)) =>
      Ok(Row(item.id, st.viewCount, st.videoCount, st.subscriberCount,
             sn.title.GetOr(""), sn.country.GetOr(""), item.topicCategories, clean))
    case _ => Err("AttributeError")
  }

  /** `process_youtube_response`: nothing when `totalResults` is 0,
      otherwise one row per item, in the answer's order. */
  function ProcessResponse(response: YouTubeResponse): (r: Result<seq<Row>>)
    ensures response.totalResults == 0 ==> r == Ok([])
    ensures response.totalResults != 0 ==>
      (r.Ok? <==> forall i :: 0 <= i < |response.items| ==> ChannelRow(response.items[i]).Ok?)
    ensures response.totalResults != 0 && r.Ok? ==> (|r.value| == |response.items|
      && forall i :: 0 <= i < |r.value| ==> r.value[i] == ChannelRow(response.items[i]).value)
  {
    if response.totalResults == 0 then Ok([]) else RowsOf(response.items)
  }

  function RowsOf(items: seq<Item>): (r: Result<seq<Row>>)
    ensures r.Ok? <==> forall i :: 0 <= i < |items| ==> ChannelRow(items[i]).Ok?
    ensures r.Ok? ==> |r.value| == |items| && forall i :: 0 <= i < |items| ==> r.value[i] == ChannelRow(items[i]).value
  {
    if |items| == 0 then Ok([])
    else
      var rest := RowsOf(items[1..]);
      assert forall i :: 1 <= i < |items| ==> items[i] == items[1..][i - 1];
      match ChannelRow(items[0])
      case Err(e) => Err(e)
      case Ok(first) =>
        match rest
        case Err(e) => Err(e)
        case Ok(rows) => Ok([first] + rows)
  }

  // ---------------------------------------------------------------------
  // Sanitising
  // ---------------------------------------------------------------------

  /** The title with the problem characters deleted, then stripped. */
  function SanitiseTitle(title: string): (r: string)
    ensures |r| <= |title|
    ensures forall i :: 0 <= i < |r| ==> r[i] !in ProblemChars
    ensures |r| > 0 ==> !IsSpace(r[0]) && !IsSpace(r[|r| - 1])
  {
    var cleaned := RemoveChars(title, ProblemChars);
    StripShape(cleaned);
    StripAvoids(cleaned, ProblemChars);
    Strip(cleaned)
  }

  /** Sanitising a sanitised title changes nothing. */
  lemma SanitiseTitleIdempotent(title: string)
    ensures SanitiseTitle(SanitiseTitle(title)) == SanitiseTitle(title)
  {
    var r := SanitiseTitle(title);
    RemoveCharsAbsent(r, ProblemChars);
    StripIdempotent(RemoveChars(title, ProblemChars));
  }

  /** `fillna(0)` then `astype(int)`: an absent count is 0, a present one
      must read as a number. */
  function Count(v: Option<string>): (r: Result<int>)
    ensures v.None? ==> r == Ok(0)
    ensures v.Some? ==> (r.Ok? <==> ParseInt(v.value).Some?)
    ensures v.Some? && r.Ok? ==> ParseInt(v.value) == Some(r.value)
  {
    match v
    case None => Ok(0)
    case Some(s) => if ParseInt(s).Some? then Ok(ParseInt(s).value) else Err("ValueError")
  }

  /** A written row. */
  datatype ChannelRecord = ChannelRecord(
    channelId: Option<string>,
    viewCount: int,
    videoCount: int,
    subscriberCount: int,
    title: string,
    country: string,
    topicCategories: Option<seq<string>>,
    cleanTopics: seq<string>,
    datetimeUpdated: string)

  /** `sanitise_youtube_dataframe` on one row, with the shared timestamp. */
  function Sanitise(row: Row, now: string): (r: Result<ChannelRecord>)
    ensures r.Ok? <==> Count(row.viewCount).Ok? && Count(row.videoCount).Ok? && Count(row.subscriberCount).Ok?
    ensures r.Ok? ==> (r.value.title == SanitiseTitle(row.title)
      && r.value.channelId == row.channelId && r.value.country == row.country
      && r.value.cleanTopics == row.cleanTopics && r.value.datetimeUpdated == now)
  {
    var views :- Count(row.viewCount);
    var videos :- Count(row.videoCount);
    var subscribers :- Count(row.subscriberCount);
    Ok(ChannelRecord(row.channelId, views, videos, subscribers, SanitiseTitle(row.title),
                     row.country, row.topicCategories, row.cleanTopics, now))
  }

  function SanitiseAll(rows: seq<Row>, now: string): (r: Result<seq<ChannelRecord>>)
    ensures r.Ok? <==> forall i :: 0 <= i < |rows| ==> Sanitise(rows[i], now).Ok?
    ensures r.Ok? ==> |r.value| == |rows| && forall i :: 0 <= i < |rows| ==> r.value[i] == Sanitise(rows[i], now).value
  {
    MapAll(rows, (row: Row) => Sanitise(row, now))
  }

  // ---------------------------------------------------------------------
  // run
  // ---------------------------------------------------------------------

  datatype RunOutcome =
    | NoNewChannels
    | NothingToWrite
    | Written(records: seq<ChannelRecord>)

  /** The loop gathering the rows of all the chunks' answers, chunk after
      chunk, or the first answer's error; `FlatMapAll` states its meaning. */
  function AllRows(chunks: seq<seq<string>>, youtube: seq<string> -> YouTubeResponse): Result<seq<Row>>
  {
    FlatMapAll(chunks, (chunk: seq<string>) => ProcessResponse(youtube(chunk)))
  }

  /** What `run(blob_name)` promises. `reportIds` is the `channel_id`
      column of the report, `known` the channels already in the table,
      `youtube(ids)` the answer to a request for `ids`, `now` the load
      time. `requests` is the chunking of the new channels: the requests
      the run makes, in order, until an answer fails to convert. */
  ghost predicate RunResult(reportIds: seq<string>, known: set<string>, youtube: seq<string> -> YouTubeResponse,
                            now: string, r: Result<RunOutcome>, requests: seq<seq<string>>)
  {
    && Requested(reportIds, known, r, requests)
    && (NewChannels(reportIds, known) != {} ==> Loaded(youtube, now, r, requests))
    && Stamped(now, r)
  }

  /** No request without new channels; otherwise `ceil(n / 50)` requests of
      one to fifty channels naming every new channel exactly once. */
  ghost predicate Requested(reportIds: seq<string>, known: set<string>, r: Result<RunOutcome>,
                            requests: seq<seq<string>>)
  {
    var newIds := NewChannels(reportIds, known);
    && (newIds == {} ==> r == Ok(NoNewChannels) && requests == [])
    && (newIds != {} ==>
          && |requests| == CeilDiv(|newIds|, ChunkSize)
          && (forall i :: 0 <= i < |requests| ==> 1 <= |requests[i]| <= ChunkSize)
          && (forall c :: c in Flatten(requests) <==> c in newIds)
          && |Flatten(requests)| == |newIds|)
  }

  /** The run fails exactly when an answer or the sanitising fails, writes
      nothing exactly when the answers hold no row, and otherwise writes
      the sanitised rows of the answers. */
  predicate Loaded(youtube: seq<string> -> YouTubeResponse, now: string, r: Result<RunOutcome>,
                   requests: seq<seq<string>>)
  {
    && (r.Err? <==> (AllRows(requests, youtube).Err?
          || SanitiseAll(AllRows(requests, youtube).value, now).Err?))
    && (r == Ok(NothingToWrite) <==> AllRows(requests, youtube) == Ok([]))
    && (r.Ok? && r.value.Written? ==>
          r.value.records == SanitiseAll(AllRows(requests, youtube).value, now).value)
  }

  /** Written records are there, carry the load time and hold no problem
      character in their titles. */
  predicate Stamped(now: string, r: Result<RunOutcome>)
  {
    r.Ok? && r.value.Written? ==> (|r.value.records| > 0
      && forall i :: 0 <= i < |r.value.records| ==>
           r.value.records[i].datetimeUpdated == now
           && forall j :: 0 <= j < |r.value.records[i].title| ==> r.value.records[i].title[j] !in ProblemChars)
  }

  /** `run(blob_name)`: the new channels are asked for fifty at a time and
      the sanitised rows of the answers are written, unless there are none. */
  method Run(reportIds: seq<string>, known: set<string>, youtube: seq<string> -> YouTubeResponse, now: string)
    returns (r: Result<RunOutcome>, requests: seq<seq<string>>)
    ensures Requested(reportIds, known, r, requests)
    ensures NewChannels(reportIds, known) != {} ==> Loaded(youtube, now, r, requests)
    ensures Stamped(now, r)
  {
    var newIds := NewChannels(reportIds, known);
    if newIds == {} {
      return Ok(NoNewChannels), [];
    }
    var ids := ListOf(newIds);
    requests := SplitToChunks(ids);
    var rows := AllRows(requests, youtube);
    if rows.Err? {
      return Err(rows.error), requests;
    }
    var records := SanitiseAll(rows.value, now);
    if records.Err? {
      return Err(records.error), requests;
    }
    if |records.value| == 0 {
      return Ok(NothingToWrite), requests;
    }
    return Ok(Written(records.value)), requests;
  }

  /** `main(event, context)`: a message that does not match the schema
      raises; otherwise `run` on the report named by `blob_name`, whose
      `channel_id` column `reports(blob_name)` gives. */
  method OnMessage(message: Json, reports: string -> seq<string>, known: set<string>,
              youtube: seq<string> -> YouTubeResponse, now: string)
    returns (r: Result<RunOutcome>, requests: seq<seq<string>>)
    ensures Validate(message, MessageSchema).Some? ==> r.Err? && requests == []
    ensures Validate(message, MessageSchema).None? ==>
      RunResult(reports(RequiredString(message, MessageSchema, "blob_name")), known, youtube, now, r, requests)
  {
    if Validate(message, MessageSchema).Some? {
      return Err("ValidationError"), [];
    }
    var blob := RequiredString(message, MessageSchema, "blob_name");
    r, requests := Run(reports(blob), known, youtube, now);
  }
}
