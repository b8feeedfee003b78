/** What the two Google Ads report functions share: the message that
    starts them, the date window a report covers, and the shape of the
    GAQL query that asks for it. */
module ReportQuery {
  import opened Wrappers
  import opened Text
  import opened Dates
  import opened Requests

  /** `message_schema` of both report functions. */
  const MessageSchema: Schema := Schema(
    [("customer_id", TString), ("lookback_days", TNumber), ("gads_filters", TString)],
    ["customer_id", "lookback_days", "gads_filters"])

  /** The look-back of a conforming message as a whole number of days: a
      JSON integer, or a JSON real without a fraction. A real with a
      fraction gives `None`. */
  function LookbackDays(v: Json): (r: Option<int>)
    ensures v.JInt? ==> r == Some(v.i)
    ensures r.Some? && v.JReal? ==> r.value as real == v.x
    ensures r.Some? ==> v.JInt? || v.JReal?
  {
    match v
    case JInt(i) => Some(i)
    case JReal(x) => if x.Floor as real == x then Some(x.Floor) else None
    case _ => None
  }

  // ---------------------------------------------------------------------
  // The date window
  // ---------------------------------------------------------------------

  /** `get_query_dates(lookback_days, today)`: the day `lookback_days`
      before today, and today, as `%Y-%m-%d` text. A window that leaves
      the calendar raises `OverflowError`. */
  function QueryDates(lookback: int, today: Date): (r: Result<(string, string)>)
    requires Valid(today)
    ensures r.Err? <==> !(1 <= Ordinal(today) - lookback <= Ordinal(MaxDate))
    ensures r.Ok? ==> Parse(r.value.1) == Some(today)
    ensures r.Ok? ==> (Parse(r.value.0).Some?
      && Ordinal(Parse(r.value.0).value) == Ordinal(today) - lookback)
  {
    var from :- Shift(today, -lookback);
    ParseFormat(from);
    ParseFormat(today);
    Ok((Format(from), Format(today)))
  }

  /** The date condition of the WHERE clause. */
  datatype DateFilter = Between(from: string, to: string) | On(day: string)

  /** A range when looking back more than one day, otherwise today alone. */
  function DateFilterOf(lookback: int, dates: (string, string)): DateFilter
  {
    if lookback > 1 then Between(dates.0, dates.1) else On(dates.1)
  }

  /** The reference meaning of a date condition: the days it selects, a
      range inclusive at both ends. */
  predicate Selects(f: DateFilter, d: Date)
    requires Valid(d)
  {
    match f
    case Between(a, b) =>
      Parse(a).Some? && Parse(b).Some? && Ordinal(Parse(a).value) <= Ordinal(d) <= Ordinal(Parse(b).value)
    case On(x) => Parse(x) == Some(d)
  }

  /** A look-back of more than one day selects that many days before
      today and today itself; a look-back of one day or less selects
      today only. */
  lemma WindowDays(lookback: int, today: Date, d: Date)
    requires Valid(today) && Valid(d) && QueryDates(lookback, today).Ok?
    ensures lookback > 1 ==>
      (Selects(DateFilterOf(lookback, QueryDates(lookback, today).value), d)
       <==> Ordinal(today) - lookback <= Ordinal(d) <= Ordinal(today))
    ensures lookback <= 1 ==>
      (Selects(DateFilterOf(lookback, QueryDates(lookback, today).value), d) <==> d == today)
  {
  }

  /** The text of a date condition. */
  function ConditionText(f: DateFilter): string
  {
    match f
    case Between(a, b) => "segments.date BETWEEN \"" + a + "\" AND \"" + b + "\""
    case On(x) => "segments.date = \"" + x + "\""
  }

  /** The dates sit at fixed places in the condition text. */
  lemma ConditionDates(lookback: int, today: Date)
    requires Valid(today) && QueryDates(lookback, today).Ok?
    ensures var text := ConditionText(DateFilterOf(lookback, QueryDates(lookback, today).value));
      && (lookback > 1 ==> (|text| == 51 && Parse(text[40..50]) == Some(today)
            && Parse(text[23..33]).Some? && Ordinal(Parse(text[23..33]).value) == Ordinal(today) - lookback))
      && (lookback <= 1 ==> (|text| == 28 && Parse(text[17..27]) == Some(today)))
  {
    var dates := QueryDates(lookback, today).value;
    if lookback > 1 {
      BetweenText(dates.0, dates.1);
    } else {
      OnText(dates.1);
    }
  }

  lemma BetweenText(a: string, b: string)
    requires |a| == 10 && |b| == 10
    ensures var text := ConditionText(Between(a, b));
      |text| == 51 && text[23..33] == a && text[40..50] == b
  {
  }

  lemma OnText(x: string)
    requires |x| == 10
    ensures var text := ConditionText(On(x));
      |text| == 28 && text[17..27] == x
  {
  }

  // ---------------------------------------------------------------------
  // The query
  // ---------------------------------------------------------------------

  /** A GAQL query: the selected fields, the resource, and the conditions
      its WHERE clause joins with `AND`. */
  datatype Query = Query(fields: seq<string>, resource: string, conditions: seq<string>)

  /** The query text, white space aside. */
  function Render(q: Query): string
  {
    "SELECT " + Join(q.fields, ", ") + " FROM " + q.resource + " WHERE " + Join(q.conditions, " AND ")
  }

  /** `where_query` as the functions build it: the date condition after
      `AND `, and `" AND " + gads_filters` whenever filters are given, even
      empty ones. */
  function WhereQuery(lookback: int, dates: (string, string), filters: Option<string>): string
  {
    "AND " + ConditionText(DateFilterOf(lookback, dates))
    + (if filters.Some? then " AND " + filters.value else "")
  }

  /** The conditions of a report query: the report's fixed ones, the date
      condition, and the filters when given. */
  function Conditions(fixed: seq<string>, lookback: int, dates: (string, string), filters: Option<string>): (r: seq<string>)
    ensures |r| == |fixed| + 1 + (if filters.Some? then 1 else 0)
    ensures r[..|fixed|] == fixed
    ensures r[|fixed|] == ConditionText(DateFilterOf(lookback, dates))
    ensures filters.Some? ==> r[|fixed| + 1] == filters.value
  {
    fixed + [ConditionText(DateFilterOf(lookback, dates))] + (if filters.Some? then [filters.value] else [])
  }

  lemma {:induction false} JoinSnoc(xs: seq<string>, y: string, sep: string)
    requires |xs| >= 1
    ensures Join(xs + [y], sep) == Join(xs, sep) + sep + y
    decreases |xs|
  {
    if |xs| == 1 {
      JoinTwo(xs[0], y, sep);
      assert xs + [y] == [xs[0], y];
    } else {
      assert (xs + [y])[1..] == xs[1..] + [y];
      JoinSnoc(xs[1..], y, sep);
    }
  }

  /** Joining the conditions with `AND` gives the fixed conditions
      followed by `where_query`: the structured query and the text the
      functions write agree. */
  lemma WhereAgrees(fixed: seq<string>, lookback: int, dates: (string, string), filters: Option<string>)
    requires |fixed| >= 1
    ensures Join(Conditions(fixed, lookback, dates, filters), " AND ")
         == Join(fixed, " AND ") + " " + WhereQuery(lookback, dates, filters)
  {
    var c := ConditionText(DateFilterOf(lookback, dates));
    var cs := Conditions(fixed, lookback, dates, filters);
    JoinSnoc(fixed, c, " AND ");
    if filters.Some? {
      assert cs == (fixed + [c]) + [filters.value];
      JoinSnoc(fixed + [c], filters.value, " AND ");
      Regroup(Join(fixed, " AND "), c, " AND " + filters.value);
    } else {
      assert cs == fixed + [c];
      Regroup(Join(fixed, " AND "), c, "");
    }
  }

  lemma Regroup(a: string, c: string, t: string)
    ensures a + " AND " + c + t == a + " " + ("AND " + c + t)
  {
    assert " AND " == " " + "AND ";
  }

  /** `get_report_query(lookback_days, gads_filters)` for a report with
      the given fields, resource and fixed conditions. */
  function BuildQuery(fields: seq<string>, resource: string, fixed: seq<string>,
                       lookback: int, filters: Option<string>, today: Date): (r: Result<Query>)
    requires Valid(today)
    ensures r.Err? <==> QueryDates(lookback, today).Err?
    ensures r.Ok? ==> (r.value.fields == fields && r.value.resource == resource
      && r.value.conditions == Conditions(fixed, lookback, QueryDates(lookback, today).value, filters))
  {
    var dates :- QueryDates(lookback, today);
    Ok(Query(fields, resource, Conditions(fixed, lookback, dates, filters)))
  }
}
