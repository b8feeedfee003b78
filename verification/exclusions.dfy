/** The placement exclusion lists of a Google Ads account, as both the
    exclusions service and the excluder read them (`get_exclusions`),
    name the file they go to, and decide whether to write it. */
module Exclusions {
  import opened Wrappers
  import opened Text

  /** One shared criterion of the report stream after `json_normalize`:
      a key the answer leaves out is `None`. */
  datatype Criterion = Criterion(
    criterionType: string,
    channelId: Option<string>,
    videoId: Option<string>,
    setName: string)

  /** One output row, columns in the order the frame is projected to. */
  datatype ExclusionRow = ExclusionRow(
    id: Option<string>,
    exclusionList: string,
    exclusionType: string,
    customerId: int,
    datetimeUpdated: string)

  /** The `id` column: the channel of a channel criterion, the video of a
      video criterion, nothing for any other type. */
  function IdOf(c: Criterion): Option<string>
  {
    if c.criterionType == "YOUTUBE_VIDEO" then c.videoId
    else if c.criterionType == "YOUTUBE_CHANNEL" then c.channelId
    else None
  }

  /** `get_exclusions`: one row per criterion in stream order, all with
      the account as a number and one load time. `int(customer_id)` is
      taken even when there are no criteria. */
  function ExclusionRows(customerId: string, criteria: seq<Criterion>, now: string): (r: Result<seq<ExclusionRow>>)
    ensures r.Ok? <==> ParseInt(customerId).Some?
    ensures r.Ok? ==> |r.value| == |criteria|
    ensures r.Ok? ==> forall i :: 0 <= i < |criteria| ==>
      && Some(r.value[i].customerId) == ParseInt(customerId)
      && r.value[i].datetimeUpdated == now
      && r.value[i].exclusionList == criteria[i].setName
      && r.value[i].exclusionType == criteria[i].criterionType
      && (criteria[i].criterionType == "YOUTUBE_CHANNEL" ==> r.value[i].id == criteria[i].channelId)
      && (criteria[i].criterionType == "YOUTUBE_VIDEO" ==> r.value[i].id == criteria[i].videoId)
  {
    match ParseInt(customerId)
    case None => Err("ValueError")
    case Some(cid) =>
      Ok(seq(|criteria|, i requires 0 <= i < |criteria| =>
        ExclusionRow(IdOf(criteria[i]), criteria[i].setName, criteria[i].criterionType, cid, now)))
  }

  const Folder: string := "google_ads_exclusions/"

  /** `f'google_ads_exclusions/{customer_id}.csv'`. */
  function FileName(customerId: string): (r: string)
    ensures |r| == |Folder| + |customerId| + 4
  {
    Folder + customerId + ".csv"
  }

  /** Each account has a file of its own. */
  lemma FileNameInjective(a: string, b: string)
    ensures FileName(a) == FileName(b) ==> a == b
  {
    if FileName(a) == FileName(b) {
      assert a == FileName(a)[|Folder|..|Folder| + |a|];
      assert b == FileName(b)[|Folder|..|Folder| + |b|];
    }
  }

  /** An upload of rows to a named blob. */
  datatype Upload = Upload(blobName: string, rows: seq<ExclusionRow>)

  /** `write_results_to_gcs`: a frame without rows is not written. */
  function WriteResults(fileName: string, rows: seq<ExclusionRow>): (r: Option<Upload>)
    ensures r.None? <==> |rows| == 0
    ensures r.Some? ==> r.value == Upload(fileName, rows)
  {
    if |rows| > 0 then Some(Upload(fileName, rows)) else None
  }
}
