/** Reading a Google Sheet range as the functions do. The Sheets API leaves
    the `values` key out of its answer when the range is empty, so a range
    is `None` (no `values`) or its rows of cells. */
module Sheets {
  import opened Wrappers
  import opened Text

  /** `.get('values', [[default]])[0][0]`, or `.get('values', [])[0][0]`
      when `default` is `None`. An empty list or an empty first row raises
      `IndexError`. */
  function FirstCell(range: Option<seq<seq<string>>>, default: Option<string>): (r: Result<string>)
    ensures range.None? ==> (r.Ok? <==> default.Some?)
    ensures range.None? && default.Some? ==> r == Ok(default.value)
    ensures range.Some? ==> (r.Ok? <==> |range.value| > 0 && |range.value[0]| > 0)
    ensures range.Some? && r.Ok? ==> r.value == range.value[0][0]
  {
    var rows := match range
      case Some(v) => v
      case None => if default.Some? then [[default.value]] else [];
    if |rows| > 0 && |rows[0]| > 0 then Ok(rows[0][0]) else Err("IndexError")
  }

  /** `(... .get('values', [['false']])[0][0]).lower() == 'true'`. */
  function Flag(range: Option<seq<seq<string>>>): (r: Result<bool>)
    ensures range.None? ==> r == Ok(false)
    ensures range.Some? ==> (r.Ok? <==> |range.value| > 0 && |range.value[0]| > 0)
    ensures range.Some? && r.Ok? ==> (r.value <==> Lower(range.value[0][0]) == "true")
  {
    match FirstCell(range, Some("false"))
    case Ok(cell) => Ok(Lower(cell) == "true")
    case Err(e) => Err(e)
  }

  /** Every spelling of `true`, whatever its case, sets a flag. */
  lemma FlagIgnoresCase(cell: string)
    ensures Flag(Some([[cell]])) == Ok(Lower(cell) == "true")
    ensures Flag(Some([["TRUE"]])) == Ok(true) && Flag(Some([["True"]])) == Ok(true)
  {
    assert Lower("TRUE") == "true";
    assert Lower("True") == "true";
  }
}
