/** The thumbnail dispatcher (`youtube_thumbnails_dispatch`): finds the
    videos of one day's report that have no thumbnail annotations yet and
    sends one message per video to the thumbnail processor. */
module ThumbnailDispatch {
  import opened Wrappers
  import opened Requests
  import Dicts
  import ThumbnailsProcess
  import opened VideoReport

  /** `message_schema`: the day of the report partition, as text. */
  const MessageSchema: Schema := Schema([("date_partition", TString)], ["date_partition"])

  /** One publish call: the JSON payload and its place in the run
      (`current` of `total`, counted from 1). */
  datatype Publication = Publication(payload: Json, current: nat, total: nat)

  /** `{'video_id': video_id}`. */
  function Payload(videoId: string): Json
  {
    JObject([("video_id", JString(videoId))])
  }

  /** `_publish_videos_as_batch`: message `i` carries video `i` and is
      labelled `i + 1` of the number of videos. */
  function Publications(videoIds: seq<string>): (r: seq<Publication>)
    ensures |r| == |videoIds|
    ensures forall i :: 0 <= i < |r| ==> r[i].current == i + 1 && r[i].total == |videoIds|
  {
    seq(|videoIds|, i requires 0 <= i < |videoIds| => Publication(Payload(videoIds[i]), i + 1, |videoIds|))
  }

  /** Each payload is a message the thumbnail processor accepts, and the
      video it names is the video it was built from. */
  lemma PayloadRoundTrip(videoId: string)
    ensures Validate(Payload(videoId), ThumbnailsProcess.MessageSchema).None?
    ensures Dicts.Get(Payload(videoId).fields, "video_id") == Some(JString(videoId))
    ensures Payload(videoId).fields == [("video_id", JString(videoId))]
  {
    assert Dicts.Get(Payload(videoId).fields, "video_id") == Some(JString(videoId));
  }

  /** Reading the messages back gives the videos, in order. */
  lemma PublicationsDecode(videoIds: seq<string>, i: nat)
    requires i < |videoIds|
    ensures Validate(Publications(videoIds)[i].payload, ThumbnailsProcess.MessageSchema).None?
    ensures Dicts.Get(Publications(videoIds)[i].payload.fields, "video_id") == Some(JString(videoIds[i]))
  {
    PayloadRoundTrip(videoIds[i]);
  }

  /** `main(event, context)`: an invalid message raises; otherwise the new
      videos of the day, one publication each. */
  function OnMessage(message: Json, report: seq<ReportRow>, annotated: set<string>): (r: Result<seq<Publication>>)
    ensures r.Err? <==> Validate(message, MessageSchema).Some?
    ensures r.Ok? ==> |r.value| == |NewVideoIds(report, annotated, RequiredString(message, MessageSchema, "date_partition"))|
    ensures r.Ok? ==> forall i :: 0 <= i < |r.value| ==>
      r.value[i].payload == Payload(NewVideoIds(report, annotated, RequiredString(message, MessageSchema, "date_partition"))[i])
  {
    match Validate(message, MessageSchema)
    case Some(_) => Err("ValidationError")
    case None =>
      var day := RequiredString(message, MessageSchema, "date_partition");
      Ok(Run(day, report, annotated))
  }

  /** `run(date_partition)`: nothing is published when there is no new
      video. */
  function Run(day: string, report: seq<ReportRow>, annotated: set<string>): (r: seq<Publication>)
    ensures |r| == 0 <==> forall k :: 0 <= k < |report| ==> report[k].day != day || report[k].videoId in annotated
    ensures forall i :: 0 <= i < |r| ==> r[i].payload.JObject?
  {
    var ids := NewVideoIds(report, annotated, day);
    QualifyingListed(report, annotated, day);
    if |ids| == 0 then []
    else
      assert ids[0] in ids;
      Publications(ids)
  }
}
