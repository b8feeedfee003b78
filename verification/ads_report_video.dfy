/** The Google Ads video report (`google_ads_report_video`): runs the
    detail placement report of one account over a date window, writes the
    rows as a CSV blob, and tells the YouTube video service about it. */
module AdsReportVideo {
  import opened Wrappers
  import opened Text
  import opened Dates
  import opened Requests
  import opened ReportQuery

  const Fields: seq<string> := [
    "customer.id",
    "detail_placement_view.display_name",
    "detail_placement_view.group_placement_target_url",
    "detail_placement_view.placement",
    "detail_placement_view.placement_type",
    "detail_placement_view.target_url",
    "metrics.impressions",
    "metrics.cost_micros",
    "metrics.conversions",
    "metrics.video_views",
    "metrics.video_view_rate",
    "metrics.clicks",
    "metrics.average_cpm",
    "metrics.ctr",
    "metrics.all_conversions_from_interactions_rate",
    "metrics.video_quartile_p25_rate",
    "metrics.video_quartile_p50_rate",
    "metrics.video_quartile_p75_rate",
    "metrics.video_quartile_p100_rate"]

  const Resource: string := "detail_placement_view"

  /** The conditions every video report query carries. */
  const Fixed: seq<string> := [
    "detail_placement_view.placement_type = \"YOUTUBE_VIDEO\"",
    "campaign.advertising_channel_type = \"VIDEO\"",
    "detail_placement_view.display_name != \"\""]

  /** `get_report_query`: YouTube video placements of video campaigns with
      a display name, in the date window, under the account's filters. */
  function VideoQuery(lookback: int, filters: Option<string>, today: Date): (r: Result<Query>)
    requires Valid(today)
    ensures r.Err? <==> QueryDates(lookback, today).Err?
    ensures r.Ok? ==> (r.value.resource == Resource
      && |Fixed| < |r.value.conditions|
      && r.value.conditions[..|Fixed|] == Fixed
      && r.value.conditions[|Fixed|] == ConditionText(DateFilterOf(lookback, QueryDates(lookback, today).value))
      && (filters.Some? <==> |r.value.conditions| == |Fixed| + 2)
      && (filters.Some? ==> r.value.conditions[|Fixed| + 1] == filters.value))
  {
    var r := BuildQuery(Fields, Resource, Fixed, lookback, filters, today);
    if r.Ok? then
      var dates := QueryDates(lookback, today).value;
      var cs := Conditions(Fixed, lookback, dates, filters);
      assert r.value.conditions == cs;
      r
    else r
  }

  // ---------------------------------------------------------------------
  // Rows
  // ---------------------------------------------------------------------

  /** One row of the report stream. The thirteen metrics are carried
      through unread. */
  datatype PlacementRow = PlacementRow(
    customerId: int,
    placement: string,
    displayName: string,
    targetUrl: string,
    placementType: string,
    groupPlacementTargetUrl: string,
    metrics: seq<real>)

  /** One CSV record, in the column order of the frame. */
  datatype ReportRecord = ReportRecord(
    datetimeUpdated: Timestamp,
    customerId: int,
    videoId: string,
    youtubeVideoName: string,
    youtubeVideoUrl: string,
    placementType: string,
    youtubeChannelUrl: string,
    metrics: seq<real>)

  /** The record of one row: the display name with every comma turned
      into a space. */
  function RecordOf(row: PlacementRow, now: Timestamp): (r: ReportRecord)
    ensures |r.youtubeVideoName| == |row.displayName|
    ensures forall i :: 0 <= i < |row.displayName| ==>
      r.youtubeVideoName[i] == (if row.displayName[i] == ',' then ' ' else row.displayName[i])
    ensures ',' !in r.youtubeVideoName
    ensures r.datetimeUpdated == now && r.customerId == row.customerId && r.videoId == row.placement
      && r.youtubeVideoUrl == row.targetUrl && r.youtubeChannelUrl == row.groupPlacementTargetUrl
      && r.placementType == row.placementType && r.metrics == row.metrics
  {
    ReplaceCharPointwise(row.displayName, ',', ' ');
    var name := ReplaceAll(row.displayName, [','], [' ']);
    assert forall i :: 0 <= i < |name| ==> name[i] != ',';
    ReportRecord(now, row.customerId, row.placement, name, row.targetUrl,
                 row.placementType, row.groupPlacementTargetUrl, row.metrics)
  }

  /** `get_report_df`: one record per row, in stream order, all stamped
      with the same time. */
  function Records(rows: seq<PlacementRow>, now: Timestamp): (r: seq<ReportRecord>)
    ensures |r| == |rows| && forall i :: 0 <= i < |rows| ==> r[i] == RecordOf(rows[i], now)
  {
    seq(|rows|, i requires 0 <= i < |rows| => RecordOf(rows[i], now))
  }

  // ---------------------------------------------------------------------
  // The blob and the message
  // ---------------------------------------------------------------------

  const BlobFolder: string := "google_ads_report_video/"

  /** `write_results_to_gcs`'s blob name: empty when there are no rows;
      otherwise the account, the first day when the window spans more than
      one day, and the last day. */
  function BlobName(customerId: string, rowCount: nat, lookback: int, dates: (string, string)): (r: string)
  {
    if rowCount == 0 then ""
    else if lookback > 1 then BlobFolder + customerId + "_" + dates.0 + "_" + dates.1 + ".csv"
    else BlobFolder + customerId + "_" + dates.1 + ".csv"
  }

  /** A non-empty blob name opens with the folder and the account and
      closes with today's date; a window longer than a day also puts its
      first day right after the account. */
  lemma BlobNameDates(customerId: string, rowCount: nat, lookback: int, today: Date)
    requires Valid(today) && QueryDates(lookback, today).Ok?
    ensures var name := BlobName(customerId, rowCount, lookback, QueryDates(lookback, today).value);
      var head := |BlobFolder + customerId + "_"|;
      && (rowCount == 0 <==> name == "")
      && (rowCount > 0 ==> (|name| >= head + 14 && name[..head] == BlobFolder + customerId + "_"
            && name[|name| - 4..] == ".csv" && Parse(name[|name| - 14..|name| - 4]) == Some(today)))
      && (rowCount > 0 && lookback > 1 ==> (|name| == head + 25
            && Parse(name[head..head + 10]).Some?
            && Ordinal(Parse(name[head..head + 10]).value) == Ordinal(today) - lookback))
      && (rowCount > 0 && lookback <= 1 ==> |name| == head + 14)
  {
    var dates := QueryDates(lookback, today).value;
    var name := BlobName(customerId, rowCount, lookback, dates);
    var prefix := BlobFolder + customerId + "_";
    var head := |prefix|;
    if rowCount > 0 {
      if lookback > 1 {
        RangeName(prefix, dates.0, dates.1);
      } else {
        DayName(prefix, dates.1);
      }
    }
  }

  lemma RangeName(prefix: string, a: string, b: string)
    requires |a| == 10 && |b| == 10
    ensures var name := prefix + a + "_" + b + ".csv";
      && |name| == |prefix| + 25 && name[..|prefix|] == prefix && name[|prefix|..|prefix| + 10] == a
      && name[|name| - 14..|name| - 4] == b && name[|name| - 4..] == ".csv"
  {
  }

  lemma DayName(prefix: string, b: string)
    requires |b| == 10
    ensures var name := prefix + b + ".csv";
      && |name| == |prefix| + 14 && name[..|prefix|] == prefix
      && name[|name| - 14..|name| - 4] == b && name[|name| - 4..] == ".csv"
  {
  }

  /** What one job did: the query it ran, the records it read, the blob
      it wrote (`""` for none) and the `{customer_id, blob_name}` message
      it sent, if any. */
  datatype Job = Job(query: Query, records: seq<ReportRecord>, blobName: string,
                     message: Option<(string, string)>)

  /** `start_job`. `stream(q)` stands for the rows Google Ads returns for
      query `q`, `today` and `now` for the clock. A message goes out
      exactly when a blob was written. */
  function StartJob(customerId: string, lookback: int, filters: string, today: Date,
                    stream: Query -> seq<PlacementRow>, now: Timestamp): (r: Result<Job>)
    requires Valid(today)
    ensures r.Err? <==> QueryDates(lookback, today).Err?
    ensures r.Ok? ==> (r.value.query == VideoQuery(lookback, Some(filters), today).value
      && r.value.records == Records(stream(r.value.query), now))
    ensures r.Ok? ==> (r.value.message.Some? <==> |r.value.records| > 0)
    ensures r.Ok? ==> (r.value.blobName == "" <==> |r.value.records| == 0)
    ensures r.Ok? && r.value.message.Some? ==> r.value.message.value == (customerId, r.value.blobName)
  {
    var query :- VideoQuery(lookback, Some(filters), today);
    var records := Records(stream(query), now);
    var dates := QueryDates(lookback, today).value;
    var blob := BlobName(customerId, |records|, lookback, dates);
    BlobNameDates(customerId, |records|, lookback, today);
    Ok(Job(query, records, blob, if blob != "" then Some((customerId, blob)) else None))
  }

  /** `main(event, context)`: a message that does not match the schema
      raises; otherwise the job runs with the message's account, look-back
      and filters. */
  function OnMessage(message: Json, today: Date, stream: Query -> seq<PlacementRow>, now: Timestamp): (r: Result<Job>)
    requires Valid(today)
    ensures Validate(message, MessageSchema).Some? ==> r.Err?
    ensures Validate(message, MessageSchema).None? ==>
      var lookback := LookbackDays(RequiredValue(message, MessageSchema, "lookback_days"));
      lookback.Some? ==>
        r == StartJob(RequiredString(message, MessageSchema, "customer_id"), lookback.value,
                      RequiredString(message, MessageSchema, "gads_filters"), today, stream, now)
  {
    match Validate(message, MessageSchema)
    case Some(_) => Err("ValidationError")
    case None =>
      match LookbackDays(RequiredValue(message, MessageSchema, "lookback_days"))
      case None => Err("Unmodelled")
      case Some(lookback) =>
        StartJob(RequiredString(message, MessageSchema, "customer_id"), lookback,
                 RequiredString(message, MessageSchema, "gads_filters"), today, stream, now)
  }
}
