/** The Google Ads channel report (`google_ads_report_channel`): runs the
    group placement report of one account over a date window, drops the
    channels already loaded today, loads the rest and tells the YouTube
    channel service which day's partition to read. */
module AdsReportChannel {
  import opened Wrappers
  import opened Text
  import opened Dates
  import opened Requests
  import opened ReportQuery
  import opened Chunking

  const Fields: seq<string> := [
    "customer.id",
    "group_placement_view.placement",
    "group_placement_view.target_url",
    "metrics.impressions",
    "metrics.cost_micros",
    "metrics.conversions",
    "metrics.video_views",
    "metrics.video_view_rate",
    "metrics.clicks",
    "metrics.average_cpm",
    "metrics.ctr",
    "metrics.all_conversions_from_interactions_rate"]

  const Resource: string := "group_placement_view"

  /** The conditions every channel report query carries. */
  const Fixed: seq<string> := [
    "group_placement_view.placement_type = \"YOUTUBE_CHANNEL\"",
    "campaign.advertising_channel_type = \"VIDEO\"",
    "group_placement_view.display_name != \"\"",
    "group_placement_view.target_url != \"\""]

  /** `get_report_query`: YouTube channel placements of video campaigns
      with a display name and a target URL, in the date window, under the
      account's filters. */
  function ChannelQuery(lookback: int, filters: Option<string>, today: Date): (r: Result<Query>)
    requires Valid(today)
    ensures r.Err? <==> QueryDates(lookback, today).Err?
    ensures r.Ok? ==> (r.value.resource == Resource
      && |Fixed| < |r.value.conditions|
      && r.value.conditions[..|Fixed|] == Fixed
      && r.value.conditions[|Fixed|] == ConditionText(DateFilterOf(lookback, QueryDates(lookback, today).value))
      && (filters.Some? <==> |r.value.conditions| == |Fixed| + 2)
      && (filters.Some? ==> r.value.conditions[|Fixed| + 1] == filters.value))
  {
    var r := BuildQuery(Fields, Resource, Fixed, lookback, filters, today);
    if r.Ok? then
      var dates := QueryDates(lookback, today).value;
      var cs := Conditions(Fixed, lookback, dates, filters);
      assert r.value.conditions == cs;
      r
    else r
  }

  // ---------------------------------------------------------------------
  // Rows
  // ---------------------------------------------------------------------

  /** One row of the report stream; the nine metrics are carried through
      unread. */
  datatype ChannelRow = ChannelRow(customerId: int, channelId: string, placementTargetUrl: string,
                                   metrics: seq<real>)

  /** One loaded record: the account as text and the load time. */
  datatype ChannelRecord = ChannelRecord(customerId: string, channelId: string,
                                         placementTargetUrl: string, metrics: seq<real>,
                                         datetimeUpdated: Timestamp)

  /** `~video_data['channel_id'].isin(existing)`: the rows whose channel is
      not loaded yet. */
  function KeepNew(rows: seq<ChannelRow>, existing: set<string>): (r: seq<ChannelRow>)
    ensures |r| <= |rows|
    ensures forall i :: 0 <= i < |r| ==> r[i] in rows && r[i].channelId !in existing
    ensures forall i :: 0 <= i < |rows| && rows[i].channelId !in existing ==> rows[i] in r
  {
    if |rows| == 0 then []
    else
      var init := KeepNew(rows[..|rows| - 1], existing);
      var last := rows[|rows| - 1];
      assert forall i :: 0 <= i < |rows| - 1 ==> rows[i] == rows[..|rows| - 1][i];
      if last.channelId in existing then init else init + [last]
  }

  /** The survivors keep their order: filtering a concatenation filters
      each part. */
  lemma {:induction false} KeepNewAppend(a: seq<ChannelRow>, b: seq<ChannelRow>, existing: set<string>)
    ensures KeepNew(a + b, existing) == KeepNew(a, existing) + KeepNew(b, existing)
    decreases |b|
  {
    if |b| > 0 {
      KeepNewAppend(a, b[..|b| - 1], existing);
      assert (a + b)[..|a + b| - 1] == a + b[..|b| - 1];
    } else {
      assert a + b == a;
    }
  }

  /** With nothing loaded yet every row survives. */
  lemma {:induction false} KeepNewNothingLoaded(rows: seq<ChannelRow>)
    ensures KeepNew(rows, {}) == rows
    decreases |rows|
  {
    if |rows| > 0 {
      var init, last := rows[..|rows| - 1], rows[|rows| - 1];
      KeepNewNothingLoaded(init);
      KeepNewSnoc(rows, {});
      InitLast(rows);
    }
  }

  lemma KeepNewSnoc(rows: seq<ChannelRow>, existing: set<string>)
    requires |rows| > 0
    ensures var last := rows[|rows| - 1];
      KeepNew(rows, existing)
        == KeepNew(rows[..|rows| - 1], existing) + (if last.channelId in existing then [] else [last])
  {
  }

  /** Nothing survives exactly when every row's channel is loaded. */
  lemma KeepNewEmpty(rows: seq<ChannelRow>, existing: set<string>)
    ensures |KeepNew(rows, existing)| == 0 <==> forall i :: 0 <= i < |rows| ==> rows[i].channelId in existing
  {
    var kept := KeepNew(rows, existing);
    if |kept| > 0 {
      assert kept[0] in rows && kept[0].channelId !in existing;
    }
  }

  /** One record per surviving row, every one stamped with `now` floored
      to the second. */
  function Stamp(rows: seq<ChannelRow>, now: Timestamp): (r: seq<ChannelRecord>)
    ensures |r| == |rows|
    ensures forall i :: 0 <= i < |rows| ==>
      && r[i].channelId == rows[i].channelId
      && ParseInt(r[i].customerId) == Some(rows[i].customerId)
      && r[i].placementTargetUrl == rows[i].placementTargetUrl
      && r[i].metrics == rows[i].metrics
      && r[i].datetimeUpdated == FloorSeconds(now)
  {
    forall i | 0 <= i < |rows| ensures ParseInt(ShowInt(rows[i].customerId)) == Some(rows[i].customerId) {
      ParseShowRoundTrip(rows[i].customerId);
    }
    seq(|rows|, i requires 0 <= i < |rows| =>
      ChannelRecord(ShowInt(rows[i].customerId), rows[i].channelId, rows[i].placementTargetUrl,
                    rows[i].metrics, FloorSeconds(now)))
  }

  // ---------------------------------------------------------------------
  // run
  // ---------------------------------------------------------------------

  /** How a run ended: no rows at all, no row left after dropping the
      loaded channels, or records loaded and `{customer_id,
      date_partition}` sent. */
  datatype Outcome =
    | NoRows
    | NoNewRows
    | Loaded(records: seq<ChannelRecord>, message: (string, string))

  /** `run(customer_id, lookback_days, gads_filters)`. `stream(q)` stands
      for the rows Google Ads returns for `q`, `existing` for the channels
      already in today's partition, `today` and `now` for the two clock
      readings. The rows of the query are handled as `Report` states. */
  function Run(customerId: string, lookback: int, filters: string, today: Date,
               stream: Query -> seq<ChannelRow>, existing: set<string>, now: Timestamp): (r: Result<Outcome>)
    requires Valid(today) && Valid(now.date)
    ensures r.Err? <==> QueryDates(lookback, today).Err?
    ensures r.Ok? ==> r.value == Report(customerId, stream(ChannelQuery(lookback, Some(filters), today).value), existing, now)
  {
    var query :- ChannelQuery(lookback, Some(filters), today);
    Ok(Report(customerId, stream(query), existing, now))
  }

  /** What `run` does with the rows of its query. */
  function Report(customerId: string, rows: seq<ChannelRow>, existing: set<string>, now: Timestamp): (o: Outcome)
    requires Valid(now.date)
    ensures o == NoRows <==> |rows| == 0
    ensures o == NoNewRows <==> |rows| > 0 && forall i :: 0 <= i < |rows| ==> rows[i].channelId in existing
    ensures o.Loaded? ==> o.records == Stamp(KeepNew(rows, existing), now)
    ensures o.Loaded? ==> (|o.records| == |KeepNew(rows, existing)|
      && (forall i :: 0 <= i < |o.records| ==>
            o.records[i].channelId !in existing && o.records[i].datetimeUpdated == FloorSeconds(now))
      && o.message.0 == customerId
      && Parse(o.message.1) == Some(now.date))
  {
    if |rows| == 0 then NoRows
    else
      var kept := KeepNew(rows, existing);
      KeepNewEmpty(rows, existing);
      if |kept| == 0 then NoNewRows
      else
        ParseFormat(now.date);
        Loaded(Stamp(kept, now), (customerId, Format(now.date)))
  }

  /** `main(event, context)`: a message that does not match the schema
      raises; otherwise `run` with the message's account, look-back and
      filters. */
  function OnMessage(message: Json, today: Date, stream: Query -> seq<ChannelRow>,
                     existing: set<string>, now: Timestamp): (r: Result<Outcome>)
    requires Valid(today) && Valid(now.date)
    ensures Validate(message, MessageSchema).Some? ==> r.Err?
    ensures Validate(message, MessageSchema).None? ==>
      var lookback := LookbackDays(RequiredValue(message, MessageSchema, "lookback_days"));
      lookback.Some? ==>
        r == Run(RequiredString(message, MessageSchema, "customer_id"), lookback.value,
                 RequiredString(message, MessageSchema, "gads_filters"), today, stream, existing, now)
  {
    match Validate(message, MessageSchema)
    case Some(_) => Err("ValidationError")
    case None =>
      match LookbackDays(RequiredValue(message, MessageSchema, "lookback_days"))
      case None => Err("Unmodelled")
      case Some(lookback) =>
        Run(RequiredString(message, MessageSchema, "customer_id"), lookback,
            RequiredString(message, MessageSchema, "gads_filters"), today, stream, existing, now)
  }
}
