/** The Google Ads account service (`google_ads_accounts`): reads the
    accounts and the report settings from a Google Sheet and publishes
    one configuration per enabled account. */
module AdsAccounts {
  import opened Wrappers
  import opened Text
  import opened Requests
  import opened Sheets

  /** `request_schema`. */
  const RequestSchema: Schema := Schema([("sheet_id", TString)], ["sheet_id"])

  // ---------------------------------------------------------------------
  // gads_filters_to_gaql_string
  // ---------------------------------------------------------------------

  /** The condition of one filter row `[metric, operator, value]`. */
  function Condition(row: seq<string>): string
    requires |row| >= 3
  {
    "metrics." + row[0] + " " + row[1] + " " + row[2]
  }

  /** The conditions of all filter rows; a row of fewer than three cells
      raises `IndexError`. Cells after the third are ignored. */
  function Conditions(rows: seq<seq<string>>): (r: Result<seq<string>>)
    ensures r.Ok? <==> forall i :: 0 <= i < |rows| ==> |rows[i]| >= 3
    ensures r.Ok? ==> |r.value| == |rows| && forall i :: 0 <= i < |rows| ==> r.value[i] == Condition(rows[i])
  {
    if |rows| == 0 then Ok([])
    else if |rows[0]| < 3 then Err("IndexError")
    else
      var rest := Conditions(rows[1..]);
      assert forall i :: 1 <= i < |rows| ==> rows[i] == rows[1..][i - 1];
      match rest
      case Err(e) => Err(e)
      case Ok(cs) => Ok([Condition(rows[0])] + cs)
  }

  /** `gads_filters_to_gaql_string`: the conditions joined with `AND`. */
  function GaqlFilters(rows: seq<seq<string>>): (r: Result<string>)
    ensures r.Ok? <==> forall i :: 0 <= i < |rows| ==> |rows[i]| >= 3
    ensures |rows| == 0 ==> r == Ok("")
  {
    var cs :- Conditions(rows);
    Ok(Join(cs, " AND "))
  }

  /** One row gives `metrics.<metric> <operator> <value>`. */
  lemma GaqlFiltersOne(row: seq<string>)
    requires |row| >= 3
    ensures GaqlFilters([row]) == Ok("metrics." + row[0] + " " + row[1] + " " + row[2])
  {
    assert [row][1..] == [];
  }

  /** The rows' conditions are joined in input order, one `AND` between
      neighbours. */
  lemma GaqlFiltersAppend(a: seq<seq<string>>, b: seq<seq<string>>)
    requires |a| >= 1 && |b| >= 1 && GaqlFilters(a).Ok? && GaqlFilters(b).Ok?
    ensures GaqlFilters(a + b) == Ok(GaqlFilters(a).value + " AND " + GaqlFilters(b).value)
  {
    var ca := Conditions(a).value;
    var cb := Conditions(b).value;
    assert forall i :: 0 <= i < |a + b| ==> |(a + b)[i]| >= 3 by {
      forall i | 0 <= i < |a + b| ensures |(a + b)[i]| >= 3 {
        if i < |a| { assert (a + b)[i] == a[i]; } else { assert (a + b)[i] == b[i - |a|]; }
      }
    }
    var cab := Conditions(a + b).value;
    assert cab == ca + cb;
    JoinAppend(ca, cb, " AND ");
  }

  // ---------------------------------------------------------------------
  // get_config_from_sheet
  // ---------------------------------------------------------------------

  /** What each published message carries. */
  datatype AccountConfig = AccountConfig(
    sheetId: string,
    customerId: string,
    lookbackDays: int,
    gadsFilters: string,
    detectObjects: bool,
    cropFacesAndPeople: bool)

  /** The reference list of enabled accounts: cell 0 of every row whose
      cell 1 is exactly `Enabled`, in sheet order. */
  function EnabledIds(rows: seq<seq<string>>): seq<string>
  {
    if |rows| == 0 then []
    else
      var last := rows[|rows| - 1];
      EnabledIds(rows[..|rows| - 1]) + (if |last| >= 2 && last[1] == "Enabled" then [last[0]] else [])
  }

  /** An account is listed exactly when some row enables it. */
  lemma {:induction false} EnabledIdsMember(rows: seq<seq<string>>, id: string)
    ensures id in EnabledIds(rows) <==> exists i :: 0 <= i < |rows| && |rows[i]| >= 2 && rows[i][0] == id && rows[i][1] == "Enabled"
  {
    if |rows| > 0 {
      var init := rows[..|rows| - 1];
      EnabledIdsMember(init, id);
      assert forall i :: 0 <= i < |init| ==> init[i] == rows[i];
      if id in EnabledIds(rows) && id !in EnabledIds(init) {
        assert rows[|rows| - 1][0] == id;
      }
      if exists i :: 0 <= i < |rows| && |rows[i]| >= 2 && rows[i][0] == id && rows[i][1] == "Enabled" {
        var i :| 0 <= i < |rows| && |rows[i]| >= 2 && rows[i][0] == id && rows[i][1] == "Enabled";
        if i < |init| {
          assert init[i] == rows[i];
        }
      }
    }
  }

  /** The loop `for customer_id, is_enabled in customer_ids`. A row that
      is not exactly two cells fails to unpack (`ValueError`); `int` of the
      look-back is taken for enabled rows only, so a bad look-back raises
      only when some account is enabled. */
  function Configs(sheetId: string, rows: seq<seq<string>>, lookback: string, filters: string,
                   detect: bool, crop: bool): (r: Result<seq<AccountConfig>>)
    ensures r.Ok? <==> ((forall i :: 0 <= i < |rows| ==> |rows[i]| == 2)
      && (|EnabledIds(rows)| > 0 ==> ParseInt(lookback).Some?))
    ensures r.Ok? ==> |r.value| == |EnabledIds(rows)|
    ensures r.Ok? ==> forall i :: 0 <= i < |r.value| ==>
      && ParseInt(lookback) == Some(r.value[i].lookbackDays)
      && r.value[i] == AccountConfig(sheetId, EnabledIds(rows)[i], r.value[i].lookbackDays, filters, detect, crop)
  {
    if |rows| == 0 then Ok([])
    else
      var init := rows[..|rows| - 1];
      var last := rows[|rows| - 1];
      assert forall i :: 0 <= i < |init| ==> init[i] == rows[i];
      var before := Configs(sheetId, init, lookback, filters, detect, crop);
      if before.Err? then Err("ValueError")
      else if |last| != 2 then Err("ValueError")
      else if last[1] != "Enabled" then before
      else
        match ParseInt(lookback)
        case None => Err("ValueError")
        case Some(days) => Ok(before.value + [AccountConfig(sheetId, last[0], days, filters, detect, crop)])
  }

  /** The five ranges read from the sheet. */
  datatype AccountSheet = AccountSheet(
    customerIds: Option<seq<seq<string>>>,
    filters: Option<seq<seq<string>>>,
    lookbackDays: Option<seq<seq<string>>>,
    detectObjects: Option<seq<seq<string>>>,
    cropFacesAndPeople: Option<seq<seq<string>>>)

  /** The default look-back reads as one day. */
  lemma ParseOne()
    ensures ParseInt("1") == Some(1)
  {
    assert AllDigits("1") && DigitsValue("1") == 1;
  }

  /** `get_config_from_sheet`: the look-back defaults to `1`, each flag
      is true exactly when its cell lower-cases to `true`, and every
      enabled account gets the same settings. */
  function ConfigFromSheet(sheetId: string, sheet: AccountSheet): (r: Result<seq<AccountConfig>>)
    ensures r.Ok? ==> (FirstCell(sheet.lookbackDays, Some("1")).Ok?
      && Flag(sheet.detectObjects).Ok? && Flag(sheet.cropFacesAndPeople).Ok?
      && GaqlFilters(sheet.filters.GetOr([])).Ok?)
    ensures r.Ok? ==> r == Configs(sheetId, sheet.customerIds.GetOr([]),
      FirstCell(sheet.lookbackDays, Some("1")).value, GaqlFilters(sheet.filters.GetOr([])).value,
      Flag(sheet.detectObjects).value, Flag(sheet.cropFacesAndPeople).value)
    ensures r.Ok? && sheet.lookbackDays.None? ==> forall i :: 0 <= i < |r.value| ==> r.value[i].lookbackDays == 1
    ensures r.Ok? && sheet.detectObjects.None? ==> forall i :: 0 <= i < |r.value| ==> !r.value[i].detectObjects
    ensures r.Ok? && sheet.cropFacesAndPeople.None? ==> forall i :: 0 <= i < |r.value| ==> !r.value[i].cropFacesAndPeople
    ensures r.Ok? ==> |r.value| == |EnabledIds(sheet.customerIds.GetOr([]))|
  {
    var lookback :- FirstCell(sheet.lookbackDays, Some("1"));
    var detect :- Flag(sheet.detectObjects);
    var crop :- Flag(sheet.cropFacesAndPeople);
    var filters :- GaqlFilters(sheet.filters.GetOr([]));
    ParseOne();
    Configs(sheetId, sheet.customerIds.GetOr([]), lookback, filters, detect, crop)
  }

  // ---------------------------------------------------------------------
  // main
  // ---------------------------------------------------------------------

  /** The outcome of one HTTP request: a reply with the configurations
      published, or an exception that escaped. */
  datatype Outcome = Answered(reply: Reply, published: seq<AccountConfig>) | Crashed(error: string)

  /** `main(request)`. `sheets(id)` stands for the ranges of sheet `id`. */
  function HandleRequest(request: Json, sheets: string -> AccountSheet): (r: Outcome)
    ensures Validate(request, RequestSchema).Some? ==>
      r == Answered(Reply(400, "Failed", Invalid(Validate(request, RequestSchema).value)), [])
    ensures Validate(request, RequestSchema).None? ==>
      var result := ConfigFromSheet(RequiredString(request, RequestSchema, "sheet_id"),
                                    sheets(RequiredString(request, RequestSchema, "sheet_id")));
      && (r.Crashed? <==> result.Err?)
      && (r.Answered? ==> r == Answered(Reply(200, "Success", Text("Downloaded data successfully")), result.value))
  {
    match Validate(request, RequestSchema)
    case Some(v) => Answered(Reply(400, "Failed", Invalid(v)), [])
    case None =>
      var sheetId := RequiredString(request, RequestSchema, "sheet_id");
      match ConfigFromSheet(sheetId, sheets(sheetId))
      case Err(e) => Crashed(e)
      case Ok(configs) => Answered(Reply(200, "Success", Text("Downloaded data successfully")), configs)
  }
}
