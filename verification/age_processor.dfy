/** The age-evaluation processor (`youtube_thumbnails_evaluate_age_processor`):
    for each video of a batch finds the best thumbnail of each of the four
    thumbnail slots, asks the model for the ages of the people in each, and
    writes one row per person, or one placeholder row when the video has no
    usable thumbnail. */
module AgeProcessor {
  import opened Wrappers
  import opened Text
  import opened Thumbnails

  /** Thumbnail qualities, best first. */
  const Prefixes: seq<string> := ["maxres", "sd", "hq", "mq", ""]

  /** The four thumbnail slots of a video. */
  const Suffixes: seq<string> := ["default", "1", "2", "3"]

  /** `f'{base_url}/{prefix}{suffix}.jpg'`. */
  function CandidateUrl(videoId: string, prefix: string, suffix: string): string
  {
    ThumbnailUrl(videoId, prefix + suffix)
  }

  /** The candidates of one slot over a list of qualities, in order. */
  function Candidates(videoId: string, prefixes: seq<string>, suffix: string): (r: seq<string>)
    ensures |r| == |prefixes|
    ensures forall j :: 0 <= j < |prefixes| ==> r[j] == CandidateUrl(videoId, prefixes[j], suffix)
  {
    seq(|prefixes|, j requires 0 <= j < |prefixes| => CandidateUrl(videoId, prefixes[j], suffix))
  }

  // ---------------------------------------------------------------------
  // Probing
  // ---------------------------------------------------------------------

  /** What `requests.head(url, timeout=5)` gave: a response with its status
      and `content-type` header, a timeout, or another request error. */
  datatype HeadResponse =
    | Response(status: int, contentType: Option<string>)
    | TimedOut
    | RequestFailed

  /** A thumbnail is taken iff the answer is 200 and its content type,
      `''` when absent, starts with `image/`. */
  predicate Usable(r: HeadResponse)
  {
    r.Response? && r.status == 200 && StartsWith(r.contentType.GetOr(""), "image/")
  }

  /** The index of the first usable quality for one slot. */
  function FirstUsable(videoId: string, prefixes: seq<string>, suffix: string, head: string -> HeadResponse): (r: Option<nat>)
    ensures r.Some? ==> (r.value < |prefixes|
      && Usable(head(CandidateUrl(videoId, prefixes[r.value], suffix)))
      && forall j :: 0 <= j < r.value ==> !Usable(head(CandidateUrl(videoId, prefixes[j], suffix))))
    ensures r.None? ==> forall j :: 0 <= j < |prefixes| ==> !Usable(head(CandidateUrl(videoId, prefixes[j], suffix)))
  {
    if |prefixes| == 0 then None
    else if Usable(head(CandidateUrl(videoId, prefixes[0], suffix))) then Some(0)
    else
      match FirstUsable(videoId, prefixes[1..], suffix, head)
      case None => None
      case Some(k) => Some(k + 1)
  }

  lemma {:induction false} FirstUsableIsFirst(videoId: string, prefixes: seq<string>, suffix: string,
                                              head: string -> HeadResponse, i: nat)
    requires i < |prefixes| && Usable(head(CandidateUrl(videoId, prefixes[i], suffix)))
    requires forall j :: 0 <= j < i ==> !Usable(head(CandidateUrl(videoId, prefixes[j], suffix)))
    ensures FirstUsable(videoId, prefixes, suffix, head) == Some(i)
  {
    if i > 0 {
      FirstUsableIsFirst(videoId, prefixes[1..], suffix, head, i - 1);
    }
  }

  lemma {:induction false} FirstUsableNone(videoId: string, prefixes: seq<string>, suffix: string,
                                           head: string -> HeadResponse)
    requires forall j :: 0 <= j < |prefixes| ==> !Usable(head(CandidateUrl(videoId, prefixes[j], suffix)))
    ensures FirstUsable(videoId, prefixes, suffix, head) == None
  {
    if |prefixes| > 0 {
      FirstUsableNone(videoId, prefixes[1..], suffix, head);
    }
  }

  /** The URL one slot contributes: its best usable quality, if any. */
  function SlotHit(videoId: string, suffix: string, head: string -> HeadResponse): (r: seq<string>)
    ensures |r| <= 1
    ensures |r| == 1 ==> Usable(head(r[0]))
    ensures |r| == 1 <==> FirstUsable(videoId, Prefixes, suffix, head).Some?
  {
    match FirstUsable(videoId, Prefixes, suffix, head)
    case None => []
    case Some(i) => [CandidateUrl(videoId, Prefixes[i], suffix)]
  }

  /** The URLs one slot requests: every quality up to and including the
      first usable one, or all five. */
  function SlotTried(videoId: string, suffix: string, head: string -> HeadResponse): (r: seq<string>)
    ensures 1 <= |r| <= |Prefixes|
  {
    match FirstUsable(videoId, Prefixes, suffix, head)
    case None => Candidates(videoId, Prefixes, suffix)
    case Some(i) => Candidates(videoId, Prefixes[..i + 1], suffix)
  }

  /** The hits of a run of slots, slot by slot. */
  function FoundIn(videoId: string, suffixes: seq<string>, head: string -> HeadResponse): (r: seq<string>)
    ensures |r| <= |suffixes|
    ensures forall k :: 0 <= k < |r| ==> Usable(head(r[k]))
  {
    if |suffixes| == 0 then []
    else FoundIn(videoId, suffixes[..|suffixes| - 1], head) + SlotHit(videoId, suffixes[|suffixes| - 1], head)
  }

  /** The requests of a run of slots, slot by slot. */
  function TriedIn(videoId: string, suffixes: seq<string>, head: string -> HeadResponse): seq<string>
  {
    if |suffixes| == 0 then []
    else TriedIn(videoId, suffixes[..|suffixes| - 1], head) + SlotTried(videoId, suffixes[|suffixes| - 1], head)
  }

  /** No hit at all iff no slot has a usable quality. */
  lemma {:induction false} FoundInEmpty(videoId: string, suffixes: seq<string>, head: string -> HeadResponse)
    ensures |FoundIn(videoId, suffixes, head)| == 0 <==>
      forall i :: 0 <= i < |suffixes| ==> FirstUsable(videoId, Prefixes, suffixes[i], head).None?
  {
    if |suffixes| > 0 {
      var init := suffixes[..|suffixes| - 1];
      var last := suffixes[|suffixes| - 1];
      FoundInEmpty(videoId, init, head);
      assert FoundIn(videoId, suffixes, head) == FoundIn(videoId, init, head) + SlotHit(videoId, last, head);
      NoneSplit(videoId, suffixes, head);
    }
  }

  lemma NoneSplit(videoId: string, suffixes: seq<string>, head: string -> HeadResponse)
    requires |suffixes| > 0
    ensures var init := suffixes[..|suffixes| - 1];
      (forall i :: 0 <= i < |suffixes| ==> FirstUsable(videoId, Prefixes, suffixes[i], head).None?)
      <==> (forall i :: 0 <= i < |init| ==> FirstUsable(videoId, Prefixes, init[i], head).None?)
           && FirstUsable(videoId, Prefixes, suffixes[|suffixes| - 1], head).None?
  {
    var init := suffixes[..|suffixes| - 1];
    assert forall i :: 0 <= i < |init| ==> init[i] == suffixes[i];
  }

  /** `_get_thumbnail_urls`: the hits of the four slots in slot order,
      or `None` (not an empty list) when there is none. */
  function ThumbnailUrls(videoId: string, head: string -> HeadResponse): (r: Option<seq<string>>)
    ensures r.None? <==> forall i, j :: 0 <= i < |Suffixes| && 0 <= j < |Prefixes| ==>
      !Usable(head(CandidateUrl(videoId, Prefixes[j], Suffixes[i])))
    ensures r.Some? ==> (1 <= |r.value| <= 4 && forall k :: 0 <= k < |r.value| ==> Usable(head(r.value[k])))
  {
    var found := FoundIn(videoId, Suffixes, head);
    FoundInEmpty(videoId, Suffixes, head);
    if |found| == 0 then None
    else
      assert !forall i, j :: 0 <= i < |Suffixes| && 0 <= j < |Prefixes| ==>
        !Usable(head(CandidateUrl(videoId, Prefixes[j], Suffixes[i]))) by {
        var i :| 0 <= i < |Suffixes| && FirstUsable(videoId, Prefixes, Suffixes[i], head).Some?;
        var j := FirstUsable(videoId, Prefixes, Suffixes[i], head).value;
        assert Usable(head(CandidateUrl(videoId, Prefixes[j], Suffixes[i])));
      }
      Some(found)
  }

  /** The hits are the slots' hits in the order default, 1, 2, 3: at most
      one URL per slot, and each is its slot's best usable quality. */
  lemma ThumbnailUrlsBySlot(videoId: string, head: string -> HeadResponse)
    requires ThumbnailUrls(videoId, head).Some?
    ensures ThumbnailUrls(videoId, head).value ==
      SlotHit(videoId, "default", head) + SlotHit(videoId, "1", head)
      + SlotHit(videoId, "2", head) + SlotHit(videoId, "3", head)
  {
    var s1, s2, s3 := ["default"], ["default", "1"], ["default", "1", "2"];
    assert Suffixes[..3] == s3 && s3[..2] == s2 && s2[..1] == s1 && s1[..0] == [];
    assert FoundIn(videoId, s1, head) == SlotHit(videoId, "default", head);
    assert FoundIn(videoId, s2, head) == FoundIn(videoId, s1, head) + SlotHit(videoId, "1", head);
    assert FoundIn(videoId, s3, head) == FoundIn(videoId, s2, head) + SlotHit(videoId, "2", head);
    assert FoundIn(videoId, Suffixes, head) == FoundIn(videoId, s3, head) + SlotHit(videoId, "3", head);
  }

  /** One more slot adds its hit and its requests. */
  lemma SlotStep(videoId: string, suffixes: seq<string>, i: nat, head: string -> HeadResponse)
    requires i < |suffixes|
    ensures FoundIn(videoId, suffixes[..i + 1], head) == FoundIn(videoId, suffixes[..i], head) + SlotHit(videoId, suffixes[i], head)
    ensures TriedIn(videoId, suffixes[..i + 1], head) == TriedIn(videoId, suffixes[..i], head) + SlotTried(videoId, suffixes[i], head)
  {
    assert suffixes[..i + 1][..i] == suffixes[..i];
  }

  lemma CandidatesStep(videoId: string, prefixes: seq<string>, suffix: string, p: nat)
    requires p < |prefixes|
    ensures Candidates(videoId, prefixes[..p + 1], suffix)
      == Candidates(videoId, prefixes[..p], suffix) + [CandidateUrl(videoId, prefixes[p], suffix)]
  {
    var a, b := Candidates(videoId, prefixes[..p + 1], suffix), Candidates(videoId, prefixes[..p], suffix);
    assert forall j :: 0 <= j < p ==> a[j] == b[j];
  }

  /** One slot of the nested loop: qualities in order, stopping at the
      first usable one (`break`). A timeout or request error is a miss. */
  method ProbeSlot(videoId: string, suffix: string, head: string -> HeadResponse)
    returns (hit: seq<string>, tried: seq<string>)
    ensures hit == SlotHit(videoId, suffix, head)
    ensures tried == SlotTried(videoId, suffix, head)
  {
    hit := [];
    tried := [];
    var p := 0;
    while p < |Prefixes|
      invariant 0 <= p <= |Prefixes|
      invariant tried == Candidates(videoId, Prefixes[..p], suffix)
      invariant forall j :: 0 <= j < p ==> !Usable(head(CandidateUrl(videoId, Prefixes[j], suffix)))
    {
      var url := CandidateUrl(videoId, Prefixes[p], suffix);
      CandidatesStep(videoId, Prefixes, suffix, p);
      tried := tried + [url];
      if Usable(head(url)) {
        FirstUsableIsFirst(videoId, Prefixes, suffix, head, p);
        hit := [url];
        return;
      }
      p := p + 1;
    }
    FirstUsableNone(videoId, Prefixes, suffix, head);
    assert Prefixes[..p] == Prefixes;
  }

  /** `_get_thumbnail_urls` as the loops run it; `tried` lists the URLs
      requested, in order. */
  method GetThumbnailUrls(videoId: string, head: string -> HeadResponse)
    returns (urls: Option<seq<string>>, tried: seq<string>)
    ensures urls == ThumbnailUrls(videoId, head)
    ensures tried == TriedIn(videoId, Suffixes, head)
  {
    var found: seq<string> := [];
    tried := [];
    var s := 0;
    while s < |Suffixes|
      invariant 0 <= s <= |Suffixes|
      invariant found == FoundIn(videoId, Suffixes[..s], head)
      invariant tried == TriedIn(videoId, Suffixes[..s], head)
    {
      var hit, t := ProbeSlot(videoId, Suffixes[s], head);
      SlotStep(videoId, Suffixes, s, head);
      found := found + hit;
      tried := tried + t;
      s := s + 1;
    }
    assert Suffixes[..s] == Suffixes;
    urls := if |found| == 0 then None else Some(found);
  }

  /** A slot whose best quality times out moves on to the next quality. */
  lemma TimeoutIsMiss(videoId: string, suffix: string, head: string -> HeadResponse)
    requires head(CandidateUrl(videoId, "maxres", suffix)).TimedOut?
    ensures |SlotTried(videoId, suffix, head)| >= 2
    ensures SlotTried(videoId, suffix, head)[1] == CandidateUrl(videoId, "sd", suffix)
  {
  }

  // ---------------------------------------------------------------------
  // Evaluating one thumbnail
  // ---------------------------------------------------------------------

  /** One entry of the model's `items`. */
  datatype AgeItem = AgeItem(description: string, age: int)

  /** What the model call gave: its parsed items, an API error, or text
      that is not JSON. */
  datatype Verdict = Items(items: seq<AgeItem>) | ApiError(error: string) | NotJson(error: string)

  /** The dictionary `_evaluate_thumbnail_age` returns: the timestamp,
      and `items` on success or a `description` on failure. */
  datatype Evaluation = Evaluation(datetimeUpdated: string, items: Option<seq<AgeItem>>, description: Option<string>)

  /** `_evaluate_thumbnail_age`. It never returns `None`, and a failure
      carries no `items`. */
  function Evaluate(url: string, verdict: Verdict, now: string): (r: Evaluation)
    ensures r.datetimeUpdated == now
    ensures r.items.Some? <==> verdict.Items?
    ensures verdict.Items? ==> r.items == Some(verdict.items)
    ensures r.description.Some? <==> !verdict.Items?
  {
    match verdict
    case Items(items) => Evaluation(now, Some(items), None)
    case ApiError(e) => Evaluation(now, None, Some("Failed to evaluate thumbnail at " + url + ": \n" + e + "."))
    case NotJson(e) =>
      Evaluation(now, None, Some("Unable to parse response as JSON for thumbnail " + url + ": \n" + e + "."))
  }

  // ---------------------------------------------------------------------
  // Rows
  // ---------------------------------------------------------------------

  /** A row of the evaluation table. The placeholder row has no thumbnail
      URL and no age. */
  datatype AgeRow = AgeRow(
    videoId: string,
    thumbnailUrl: Option<string>,
    datetimeUpdated: string,
    modelId: string,
    description: string,
    age: Option<int>)

  /** The row written for a video without a usable thumbnail. */
  function NoThumbnailRow(videoId: string, now: string): (r: AgeRow)
    ensures r.videoId == videoId && r.modelId == "NONE"
    ensures r.thumbnailUrl.None? && r.age.None? && r.datetimeUpdated == now
  {
    AgeRow(videoId, None, now, "NONE", "No usable thumbnails found for video " + videoId + ".", None)
  }

  /** `response_enriched`: one row per item, or `KeyError` when the
      evaluation has no `items`. */
  function EnrichedRows(videoId: string, url: string, e: Evaluation, model: string): (r: Result<seq<AgeRow>>)
    ensures r.Ok? <==> e.items.Some?
    ensures r.Ok? ==> |r.value| == |e.items.value|
    ensures r.Ok? ==> forall k :: 0 <= k < |r.value| ==>
      && r.value[k].videoId == videoId
      && r.value[k].thumbnailUrl == Some(url)
      && r.value[k].datetimeUpdated == e.datetimeUpdated
      && r.value[k].modelId == model
      && r.value[k].description == e.items.value[k].description
      && r.value[k].age == Some(e.items.value[k].age)
  {
    match e.items
    case None => Err("KeyError")
    case Some(items) =>
      Ok(seq(|items|, k requires 0 <= k < |items| =>
        AgeRow(videoId, Some(url), e.datetimeUpdated, model, items[k].description, Some(items[k].age))))
  }

  /** `_write_data_to_bq`: an empty list writes nothing; otherwise one
      insert of all the rows. */
  function Writes(rows: seq<AgeRow>): (r: seq<seq<AgeRow>>)
    ensures |r| == 0 <==> |rows| == 0
    ensures |r| <= 1 && (|r| == 1 ==> r[0] == rows)
  {
    if |rows| == 0 then [] else [rows]
  }

  // ---------------------------------------------------------------------
  // run, as written
  // ---------------------------------------------------------------------

  /** The inserts a run made, and whether an exception ended it. */
  datatype Outcome = Outcome(writes: seq<seq<AgeRow>>, aborted: bool)

  /** Every insert holds at least one row. */
  predicate NonEmptyWrites(writes: seq<seq<AgeRow>>)
  {
    forall i :: 0 <= i < |writes| ==> |writes[i]| > 0
  }

  /** Whether some thumbnail of the video gets a failed evaluation. */
  predicate VideoFails(videoId: string, head: string -> HeadResponse, model: string -> Verdict)
  {
    match ThumbnailUrls(videoId, head)
    case None => false
    case Some(urls) => exists k :: 0 <= k < |urls| && !model(urls[k]).Items?
  }

  /** The inner loop of `run` over one video's thumbnails. `now(url)` is
      the time the evaluation of `url` finished. */
  function ThumbnailsAsWritten(videoId: string, urls: seq<string>, modelId: string,
                               model: string -> Verdict, now: string -> string): (r: Outcome)
    ensures r.aborted <==> exists k :: 0 <= k < |urls| && !model(urls[k]).Items?
    ensures NonEmptyWrites(r.writes)
  {
    if |urls| == 0 then Outcome([], false)
    else
      var url := urls[0];
      match EnrichedRows(videoId, url, Evaluate(url, model(url), now(url)), modelId)
      case Err(_) => Outcome([], true)
      case Ok(rows) =>
        var rest := ThumbnailsAsWritten(videoId, urls[1..], modelId, model, now);
        assert forall k :: 1 <= k < |urls| ==> urls[k] == urls[1..][k - 1];
        Outcome(Writes(rows) + rest.writes, rest.aborted)
  }

  /** One pass of the outer loop. `now(videoId)` is the time the
      placeholder row was made. */
  function VideoAsWritten(videoId: string, head: string -> HeadResponse, modelId: string,
                          model: string -> Verdict, now: string -> string): (r: Outcome)
    ensures r.aborted <==> VideoFails(videoId, head, model)
    ensures NonEmptyWrites(r.writes)
    ensures ThumbnailUrls(videoId, head).None? ==> r.writes == [[NoThumbnailRow(videoId, now(videoId))]]
  {
    match ThumbnailUrls(videoId, head)
    case None => Outcome([[NoThumbnailRow(videoId, now(videoId))]], false)
    case Some(urls) => ThumbnailsAsWritten(videoId, urls, modelId, model, now)
  }

  /** `run` over the batch as the code is written: a failed evaluation
      raises `KeyError` at `response['items']`, which ends the whole
      invocation. */
  function RunAsWritten(videos: seq<string>, head: string -> HeadResponse, modelId: string,
                        model: string -> Verdict, now: string -> string): (r: Outcome)
    ensures r.aborted <==> exists i :: 0 <= i < |videos| && VideoFails(videos[i], head, model)
    ensures NonEmptyWrites(r.writes)
  {
    if |videos| == 0 then Outcome([], false)
    else
      var first := VideoAsWritten(videos[0], head, modelId, model, now);
      if first.aborted then first
      else
        var rest := RunAsWritten(videos[1..], head, modelId, model, now);
        FailsInTail(videos, head, model);
        NonEmptyAppend(first.writes, rest.writes);
        Outcome(first.writes + rest.writes, rest.aborted)
  }

  /** When the first video does not fail, a failing video of the batch is
      one of the rest. */
  lemma FailsInTail(videos: seq<string>, head: string -> HeadResponse, model: string -> Verdict)
    requires |videos| > 0 && !VideoFails(videos[0], head, model)
    ensures (exists i :: 0 <= i < |videos| && VideoFails(videos[i], head, model))
      <==> (exists i :: 0 <= i < |videos| - 1 && VideoFails(videos[1..][i], head, model))
  {
    if i :| 0 <= i < |videos| && VideoFails(videos[i], head, model) {
      assert videos[1..][i - 1] == videos[i];
    }
  }

  lemma NonEmptyAppend(a: seq<seq<AgeRow>>, b: seq<seq<AgeRow>>)
    requires NonEmptyWrites(a) && NonEmptyWrites(b)
    ensures NonEmptyWrites(a + b)
  {
    assert forall i :: |a| <= i < |a + b| ==> (a + b)[i] == b[i - |a|];
  }

  /** The discrepancy: when the first video has a usable thumbnail whose
      evaluation fails, the run ends with nothing written, whatever the
      rest of the batch holds; not even the placeholder rows of later
      videos are written. */
  lemma FailureAbortsBatch(videos: seq<string>, head: string -> HeadResponse, modelId: string,
                           model: string -> Verdict, now: string -> string)
    requires |videos| > 0 && ThumbnailUrls(videos[0], head).Some?
    requires !model(ThumbnailUrls(videos[0], head).value[0]).Items?
    ensures RunAsWritten(videos, head, modelId, model, now) == Outcome([], true)
  {
    var urls := ThumbnailUrls(videos[0], head).value;
    assert VideoFails(videos[0], head, model);
  }

  // ---------------------------------------------------------------------
  // run, as evidently intended
  // ---------------------------------------------------------------------

  /** The inner loop with the skip the code's `is None` check was meant
      to give: a failed thumbnail is passed over. */
  function ThumbnailsCorrected(videoId: string, urls: seq<string>, modelId: string,
                               model: string -> Verdict, now: string -> string): (r: seq<seq<AgeRow>>)
    ensures NonEmptyWrites(r)
    ensures |r| <= |urls|
    ensures forall i :: 0 <= i < |r| ==> forall j :: 0 <= j < |r[i]| ==>
      r[i][j].videoId == videoId && r[i][j].thumbnailUrl.Some? && r[i][j].modelId == modelId
  {
    if |urls| == 0 then []
    else
      var url := urls[0];
      var rest := ThumbnailsCorrected(videoId, urls[1..], modelId, model, now);
      match EnrichedRows(videoId, url, Evaluate(url, model(url), now(url)), modelId)
      case Err(_) => rest
      case Ok(rows) => Writes(rows) + rest
  }

  function VideoCorrected(videoId: string, head: string -> HeadResponse, modelId: string,
                          model: string -> Verdict, now: string -> string): (r: seq<seq<AgeRow>>)
    ensures NonEmptyWrites(r)
    ensures forall i :: 0 <= i < |r| ==> forall j :: 0 <= j < |r[i]| ==> r[i][j].videoId == videoId
  {
    match ThumbnailUrls(videoId, head)
    case None => [[NoThumbnailRow(videoId, now(videoId))]]
    case Some(urls) => ThumbnailsCorrected(videoId, urls, modelId, model, now)
  }

  /** `run` with failed evaluations skipped: every video of the batch is
      handled, in order. */
  function RunCorrected(videos: seq<string>, head: string -> HeadResponse, modelId: string,
                        model: string -> Verdict, now: string -> string): (r: seq<seq<AgeRow>>)
    ensures NonEmptyWrites(r)
  {
    if |videos| == 0 then []
    else VideoCorrected(videos[0], head, modelId, model, now) + RunCorrected(videos[1..], head, modelId, model, now)
  }

  /** Without a failed evaluation the two runs make the same inserts. */
  lemma {:induction false} ThumbnailsAgree(videoId: string, urls: seq<string>, modelId: string,
                                           model: string -> Verdict, now: string -> string)
    requires forall k :: 0 <= k < |urls| ==> model(urls[k]).Items?
    ensures ThumbnailsAsWritten(videoId, urls, modelId, model, now)
      == Outcome(ThumbnailsCorrected(videoId, urls, modelId, model, now), false)
  {
    if |urls| > 0 {
      assert forall k :: 0 <= k < |urls| - 1 ==> urls[1..][k] == urls[k + 1];
      ThumbnailsAgree(videoId, urls[1..], modelId, model, now);
    }
  }

  lemma {:induction false} RunsAgree(videos: seq<string>, head: string -> HeadResponse, modelId: string,
                                     model: string -> Verdict, now: string -> string)
    requires forall i :: 0 <= i < |videos| ==> !VideoFails(videos[i], head, model)
    ensures RunAsWritten(videos, head, modelId, model, now)
      == Outcome(RunCorrected(videos, head, modelId, model, now), false)
  {
    if |videos| > 0 {
      var v := videos[0];
      if ThumbnailUrls(v, head).Some? {
        assert !VideoFails(v, head, model);
        ThumbnailsAgree(v, ThumbnailUrls(v, head).value, modelId, model, now);
      }
      assert forall i :: 0 <= i < |videos| - 1 ==> videos[1..][i] == videos[i + 1];
      RunsAgree(videos[1..], head, modelId, model, now);
    }
  }

  /** In the corrected run a failing first video costs only its own rows:
      the rest of the batch is still written. */
  lemma CorrectedSkipsFailures(videos: seq<string>, head: string -> HeadResponse, modelId: string,
                               model: string -> Verdict, now: string -> string)
    requires |videos| > 0 && ThumbnailUrls(videos[0], head).Some?
    requires forall k :: 0 <= k < |ThumbnailUrls(videos[0], head).value| ==>
      !model(ThumbnailUrls(videos[0], head).value[k]).Items?
    ensures RunCorrected(videos, head, modelId, model, now) == RunCorrected(videos[1..], head, modelId, model, now)
  {
    NoRowsFromFailures(videos[0], ThumbnailUrls(videos[0], head).value, modelId, model, now);
  }

  lemma {:induction false} NoRowsFromFailures(videoId: string, urls: seq<string>, modelId: string,
                                              model: string -> Verdict, now: string -> string)
    requires forall k :: 0 <= k < |urls| ==> !model(urls[k]).Items?
    ensures ThumbnailsCorrected(videoId, urls, modelId, model, now) == []
  {
    if |urls| > 0 {
      assert forall k :: 0 <= k < |urls| - 1 ==> urls[1..][k] == urls[k + 1];
      NoRowsFromFailures(videoId, urls[1..], modelId, model, now);
    }
  }

  /** A video with no usable thumbnail gets exactly its placeholder row
      and the run moves on to the next video. */
  lemma PlaceholderThenNext(videos: seq<string>, head: string -> HeadResponse, modelId: string,
                            model: string -> Verdict, now: string -> string)
    requires |videos| > 0 && ThumbnailUrls(videos[0], head).None?
    ensures RunCorrected(videos, head, modelId, model, now)
      == [[NoThumbnailRow(videos[0], now(videos[0]))]] + RunCorrected(videos[1..], head, modelId, model, now)
    ensures !RunAsWritten(videos, head, modelId, model, now).aborted ==>
      RunAsWritten(videos, head, modelId, model, now).writes
        == [[NoThumbnailRow(videos[0], now(videos[0]))]] + RunAsWritten(videos[1..], head, modelId, model, now).writes
  {
  }
}
