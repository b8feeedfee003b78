/** The age-evaluation dispatcher (`youtube_thumbnails_evaluate_age_dispatcher`):
    reads its prompt and settings from a Google Sheet, and when age
    evaluation is enabled sends the videos not yet evaluated to the
    evaluator in batches of five. */
module AgeDispatcher {
  import opened Wrappers
  import opened Text
  import opened Dicts
  import opened Chunking
  import opened Requests
  import opened Sheets

  /** How many videos go to the evaluator in one message. */
  const BatchSize: nat := 5

  /** The setting that switches the evaluation on. */
  const GateKey: string := "use_gemini_to_evaluate_age"

  /** `REQUEST_SCHEMA`: both properties are required text. */
  const RequestSchema: Schema :=
    Schema([("processing_limit", TString), ("sheet_id", TString)], ["processing_limit", "sheet_id"])

  // ---------------------------------------------------------------------
  // The settings dictionary
  // ---------------------------------------------------------------------

  /** The `(cell 0, cell 1)` pairs of the rows with at least two cells. */
  function SettingPairs(rows: seq<seq<string>>): (r: seq<(string, string)>)
    ensures |r| <= |rows|
  {
    if |rows| == 0 then []
    else
      var last := rows[|rows| - 1];
      SettingPairs(rows[..|rows| - 1]) + (if |last| >= 2 then [(last[0], last[1])] else [])
  }

  /** `{item[0]: item[1] for item in config if len(item) >= 2}`. */
  function Settings(rows: seq<seq<string>>): (r: seq<(string, string)>)
    ensures DistinctKeys(r)
  {
    PutAllDistinct([], SettingPairs(rows));
    PutAll([], SettingPairs(rows))
  }

  /** The reference reading of a setting: cell 1 of the last row of two or
      more cells whose cell 0 is `k`. */
  function LastSetting(rows: seq<seq<string>>, k: string): Option<string>
  {
    if |rows| == 0 then None
    else
      var last := rows[|rows| - 1];
      if |last| >= 2 && last[0] == k then Some(last[1]) else LastSetting(rows[..|rows| - 1], k)
  }

  lemma {:induction false} LastForPairs(rows: seq<seq<string>>, k: string)
    ensures LastFor(SettingPairs(rows), k) == LastSetting(rows, k)
  {
    if |rows| > 0 {
      var init := rows[..|rows| - 1];
      var last := rows[|rows| - 1];
      LastForPairs(init, k);
      if |last| >= 2 {
        var ps := SettingPairs(rows);
        assert ps[..|ps| - 1] == SettingPairs(init);
      } else {
        assert SettingPairs(rows) == SettingPairs(init);
      }
    }
  }

  /** Short rows are ignored and a later row for the same name overrides
      an earlier one. */
  lemma SettingsGet(rows: seq<seq<string>>, k: string)
    ensures Get(Settings(rows), k) == LastSetting(rows, k)
  {
    PutAllGet([], SettingPairs(rows), k);
    LastForPairs(rows, k);
  }

  // ---------------------------------------------------------------------
  // The sheet
  // ---------------------------------------------------------------------

  /** The three ranges read from the sheet. */
  datatype SheetRanges = SheetRanges(
    instruction: Option<seq<seq<string>>>,
    prompt: Option<seq<seq<string>>>,
    configuration: Option<seq<seq<string>>>)

  datatype Config = Config(systemInstruction: string, prompt: string, settings: seq<(string, string)>)

  /** `_get_config_from_sheet`: the first cell of the instruction and of
      the prompt range (an empty range raises) and the settings. */
  function ConfigFromSheet(sheet: SheetRanges): (r: Result<Config>)
    ensures r.Ok? <==> FirstCell(sheet.instruction, None).Ok? && FirstCell(sheet.prompt, None).Ok?
    ensures r.Ok? ==> (r.value.systemInstruction == sheet.instruction.value[0][0]
      && r.value.prompt == sheet.prompt.value[0][0])
    ensures r.Ok? ==> forall k :: Get(r.value.settings, k) == LastSetting(sheet.configuration.GetOr([]), k)
  {
    var instruction :- FirstCell(sheet.instruction, None);
    var prompt :- FirstCell(sheet.prompt, None);
    var rows := sheet.configuration.GetOr([]);
    assert forall k :: Get(Settings(rows), k) == LastSetting(rows, k) by {
      forall k
        ensures Get(Settings(rows), k) == LastSetting(rows, k)
      {
        SettingsGet(rows, k);
      }
    }
    Ok(Config(instruction, prompt, Settings(rows)))
  }

  // ---------------------------------------------------------------------
  // Batching
  // ---------------------------------------------------------------------

  /** One message to the evaluator. `videos` holds the `video_id` of each
      `{'video_id': ...}` record. */
  datatype Message = Message(
    systemInstruction: string,
    prompt: string,
    batchId: string,
    batchPart: string,
    totalBatchParts: string,
    videos: seq<string>)

  /** The messages the loop over `range(0, len(data), BATCH_SIZE)` builds:
      message `j` carries the `j`-th block of five. */
  function Messages(config: Config, data: seq<string>): (r: seq<Message>)
    ensures |r| == CeilDiv(|data|, BatchSize)
    ensures forall j :: 0 <= j < |r| ==>
      && r[j].systemInstruction == config.systemInstruction
      && r[j].prompt == config.prompt
      && r[j].batchId == "placeholder"
  {
    var blocks := Consecutive(data, BatchSize);
    ConsecutiveCount(data, BatchSize);
    var total := ShowNat(|blocks|);
    seq(|blocks|, j requires 0 <= j < |blocks| =>
      Message(config.systemInstruction, config.prompt, "placeholder", ShowNat(j + 1), total, blocks[j]))
  }

  /** Message `j` (counting from 0) holds `data[5j : 5j + 5]`; its part
      number reads back as `j + 1` and its total as the message count. */
  lemma MessageAt(config: Config, data: seq<string>, j: nat)
    requires j < |Messages(config, data)|
    ensures 5 * j < |data|
    ensures Messages(config, data)[j].videos == data[5 * j .. Min(5 * j + 5, |data|)]
    ensures ParseInt(Messages(config, data)[j].batchPart) == Some(j + 1)
    ensures ParseInt(Messages(config, data)[j].totalBatchParts) == Some(CeilDiv(|data|, BatchSize))
  {
    ConsecutiveCount(data, BatchSize);
    ConsecutiveAt(data, BatchSize, j);
    assert 5 * (j + 1) == 5 * j + 5;
    ParseShowRoundTrip(j + 1);
    ParseShowRoundTrip(CeilDiv(|data|, BatchSize));
  }

  /** The video lists of a run of messages. */
  function VideoLists(ms: seq<Message>): (r: seq<seq<string>>)
    ensures |r| == |ms| && forall j :: 0 <= j < |ms| ==> r[j] == ms[j].videos
  {
    seq(|ms|, j requires 0 <= j < |ms| => ms[j].videos)
  }

  /** The batches, in order, are the query result again: every video is
      sent once, in the order the query returned it. */
  lemma MessagesCoverData(config: Config, data: seq<string>)
    ensures Flatten(VideoLists(Messages(config, data))) == data
  {
    var blocks := Consecutive(data, BatchSize);
    ConsecutiveCount(data, BatchSize);
    ConsecutiveFlatten(data, BatchSize);
    var ms := Messages(config, data);
    assert VideoLists(ms) == blocks;
  }

  // ---------------------------------------------------------------------
  // run and main
  // ---------------------------------------------------------------------

  /** How a run that did not raise ended. */
  datatype RunOutcome =
    | Disabled
    | NoVideos
    | Published(messages: seq<Message>)

  /** `run(sheet_id, processing_limit)`. `query(limit)` stands for the
      videos the warehouse returns, in its order. A missing gate setting
      raises `KeyError`. */
  function Run(sheet: SheetRanges, query: int -> seq<string>, limit: int): (r: Result<RunOutcome>)
    ensures ConfigFromSheet(sheet).Err? ==> r.Err?
    ensures ConfigFromSheet(sheet).Ok? ==>
      (r.Err? <==> LastSetting(sheet.configuration.GetOr([]), GateKey).None?)
    ensures r == Ok(Disabled) <==> (ConfigFromSheet(sheet).Ok?
      && LastSetting(sheet.configuration.GetOr([]), GateKey).Some?
      && LastSetting(sheet.configuration.GetOr([]), GateKey).value != "Enabled")
    ensures r == Ok(NoVideos) ==> |query(limit)| == 0
    ensures r.Ok? && r.value.Published? ==> (|query(limit)| > 0
      && |r.value.messages| == CeilDiv(|query(limit)|, BatchSize)
      && LastSetting(sheet.configuration.GetOr([]), GateKey) == Some("Enabled")
      && r.value.messages == Messages(ConfigFromSheet(sheet).value, query(limit)))
  {
    var config :- ConfigFromSheet(sheet);
    match Get(config.settings, GateKey)
    case None => Err("KeyError")
    case Some(gate) =>
      if gate != "Enabled" then Ok(Disabled)
      else
        var data := query(limit);
        if |data| == 0 then Ok(NoVideos) else Ok(Published(Messages(config, data)))
  }

  /** The outcome of one HTTP request: a reply, with the run it made when
      it made one, or an exception that escaped. */
  datatype Outcome = Answered(reply: Reply, run: Option<RunOutcome>) | Crashed(error: string)

  /** `int(processing_limit)` of a conforming request. */
  function LimitOf(request: Json): Option<int>
    requires Validate(request, RequestSchema).None?
  {
    ParseInt(RequiredString(request, RequestSchema, "processing_limit"))
  }

  /** The sheet a conforming request names. */
  function SheetOf(request: Json, sheets: string -> SheetRanges): SheetRanges
    requires Validate(request, RequestSchema).None?
  {
    sheets(RequiredString(request, RequestSchema, "sheet_id"))
  }

  /** `main(request)`. `sheets(id)` stands for the ranges of sheet `id`. */
  function HandleRequest(request: Json, sheets: string -> SheetRanges, query: int -> seq<string>): (r: Outcome)
    ensures Validate(request, RequestSchema).Some? ==>
      r == Answered(Reply(400, "Failed", Invalid(Validate(request, RequestSchema).value)), None)
    ensures r.Answered? && r.reply.code == 200 ==> Conforms(request, RequestSchema)
    ensures r.Answered? ==> (r.run.Some? <==> r.reply == Reply(200, "Success", Text("Message dispatch finished.")))
    ensures r.Answered? ==> r.reply.code == 200 || r.reply.code == 400
    ensures Validate(request, RequestSchema).None? && LimitOf(request).None? ==> r == Crashed("ValueError")
    ensures Validate(request, RequestSchema).None? && LimitOf(request).Some? ==>
      var run := Run(SheetOf(request, sheets), query, LimitOf(request).value);
      run.Err? ==> r == Crashed(run.error)
    ensures Validate(request, RequestSchema).None? && LimitOf(request).Some? ==>
      var run := Run(SheetOf(request, sheets), query, LimitOf(request).value);
      run.Ok? ==> r == Answered(Reply(200, "Success", Text("Message dispatch finished.")), Some(run.value))
  {
    match Validate(request, RequestSchema)
    case Some(v) => Answered(Reply(400, "Failed", Invalid(v)), None)
    case None =>
      var text := RequiredString(request, RequestSchema, "processing_limit");
      var sheetId := RequiredString(request, RequestSchema, "sheet_id");
      match ParseInt(text)
      case None => Crashed("ValueError")
      case Some(limit) =>
        match Run(sheets(sheetId), query, limit)
        case Err(e) => Crashed(e)
        case Ok(o) => Answered(Reply(200, "Success", Text("Message dispatch finished.")), Some(o))
  }
}
