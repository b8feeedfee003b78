/** The Google Ads exclusions service (`google_ads_exclusions`): copies
    an account's placement exclusion lists to a CSV blob. */
module AdsExclusions {
  import opened Wrappers
  import opened Requests
  import opened Exclusions

  /** `message_schema`. */
  const MessageSchema: Schema := Schema([("customer_id", TString)], ["customer_id"])

  /** `run(customer_id)`. `criteria(cid)` stands for the shared criteria
      Google Ads returns for the account, `now` for the formatted clock. */
  function Run(customerId: string, criteria: string -> seq<Criterion>, now: string): (r: Result<Option<Upload>>)
    ensures r.Err? <==> ExclusionRows(customerId, criteria(customerId), now).Err?
    ensures r.Ok? ==> (r.value.None? <==> |criteria(customerId)| == 0)
    ensures r.Ok? && r.value.Some? ==>
      && r.value.value.blobName == FileName(customerId)
      && r.value.value.rows == ExclusionRows(customerId, criteria(customerId), now).value
  {
    var rows :- ExclusionRows(customerId, criteria(customerId), now);
    Ok(WriteResults(FileName(customerId), rows))
  }

  /** `main(event, context)`: a message that does not match the schema
      raises; otherwise `run` for its account. */
  function OnMessage(message: Json, criteria: string -> seq<Criterion>, now: string): (r: Result<Option<Upload>>)
    ensures Validate(message, MessageSchema).Some? ==> r.Err?
    ensures Validate(message, MessageSchema).None? ==>
      r == Run(RequiredString(message, MessageSchema, "customer_id"), criteria, now)
  {
    match Validate(message, MessageSchema)
    case Some(_) => Err("ValidationError")
    case None => Run(RequiredString(message, MessageSchema, "customer_id"), criteria, now)
  }
}
