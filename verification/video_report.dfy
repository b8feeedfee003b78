/** The Google Ads video report as the YouTube services query it: the
    distinct videos of one day's partition that a target table does not
    hold yet. */
module VideoReport {

  /** A row of the video report: the video and the day it was updated
      (`TIMESTAMP_TRUNC(datetime_updated, DAY)`). */
  datatype ReportRow = ReportRow(videoId: string, day: string)

  /** The query: the distinct videos of the day's partition that have no
      row in the target table yet. */
  function NewVideoIds(report: seq<ReportRow>, known: set<string>, day: string): (r: seq<string>)
    ensures forall i, j :: 0 <= i < j < |r| ==> r[i] != r[j]
    ensures forall v :: v in r <==>
      (v !in known && exists k :: 0 <= k < |report| && report[k] == ReportRow(v, day))
  {
    if |report| == 0 then []
    else
      var init := report[..|report| - 1];
      var last := report[|report| - 1];
      var before := NewVideoIds(init, known, day);
      assert forall k :: 0 <= k < |init| ==> init[k] == report[k];
      if last.day == day && last.videoId !in known && last.videoId !in before then before + [last.videoId]
      else before
  }

  /** A row of the day for a video the target table lacks puts that video
      on the list. */
  lemma QualifyingListed(report: seq<ReportRow>, known: set<string>, day: string)
    ensures (exists k :: 0 <= k < |report| && report[k].day == day && report[k].videoId !in known)
      ==> |NewVideoIds(report, known, day)| > 0
  {
    if exists k :: 0 <= k < |report| && report[k].day == day && report[k].videoId !in known {
      var k :| 0 <= k < |report| && report[k].day == day && report[k].videoId !in known;
      assert report[k] == ReportRow(report[k].videoId, day);
      assert report[k].videoId in NewVideoIds(report, known, day);
    }
  }
}
