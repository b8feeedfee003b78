/** The first-generation thumbnail function (`youtube_thumbnails`): each of
    the four tiers' best thumbnail is processed on its own, in tier order;
    its annotations are loaded, its faces and persons are cropped and
    uploaded one by one, and each upload may be announced on a topic. */
module ThumbnailsLegacy {
  import opened Wrappers
  import opened BlobNames
  import opened Thumbnails
  import opened ThumbnailsProcess
  import opened Chunking

  /** Cropping is hard-wired on in this function. */
  const CropAndStore: bool := true

  /** The labels whose objects are cropped. */
  const CropList: seq<string> := ["Face", "Person"]

  /** The annotations table, under the configured dataset. */
  function AnnotationsTableIn(dataset: string): string
  {
    dataset + "." + AnnotationsTable
  }

  /** What the function does to the outside world, in order. */
  datatype Effect =
    | LoadRows(table: string, rows: seq<AnnotationRow>)
    | Upload(bucket: string, name: string, crop: Crop)
    | Publish(topic: string, message: string)

  /** The effects so far and whether an exception ended the run. */
  datatype Outcome = Outcome(effects: seq<Effect>, aborted: bool)

  /** The settings and the services one run depends on. `now(url)` is the
      time read once for a thumbnail, `uuid(url, j)` the identifier drawn
      for its j-th cropout and `publicUrl(bucket, name)` the address the
      storage library reports for an uploaded object. */
  datatype Env = Env(
    vision: string -> Vision,
    now: string -> string,
    uuid: (string, nat) -> string,
    send: bool,
    dataset: string,
    bucket: string,
    topic: string,
    publicUrl: (string, string) -> string)

  ghost predicate ValidEnv(env: Env)
  {
    forall u :: WellFormedVision(env.vision(u))
  }

  /** `if SEND_CROPOUTS_TO_PUBSUB:` on the raw setting: any non-empty text,
      `'False'` included, switches announcing on. */
  function SendEnabled(setting: Option<string>): (r: bool)
    ensures r <==> setting.Some? && |setting.value| > 0
  {
    match setting
    case None => false
    case Some(s) => s != ""
  }

  lemma FalseStillSends()
    ensures SendEnabled(Some("False"))
  {
  }

  // ---------------------------------------------------------------------
  // One thumbnail
  // ---------------------------------------------------------------------

  /** `_get_best_resolution_thumbnail`: the first URL of the tier answering
      200 with its image, or None. */
  method BestThumbnail(names: seq<string>, videoId: string, status: string -> int, fetch: string -> Image)
    returns (t: Option<(string, Image)>)
    ensures t.Some? <==> |TierHit(names, videoId, status)| == 1
    ensures t.Some? ==> t.value == (TierHit(names, videoId, status)[0], fetch(TierHit(names, videoId, status)[0]))
  {
    var found, _ := ProbeTier(names, videoId, status);
    match found
    case None => t := None;
    case Some(u) => t := Some((u, fetch(u)));
  }

  /** The thumbnails `run` hands on, tier by tier. */
  function TierThumbnail(names: seq<string>, videoId: string, status: string -> int, fetch: string -> Image)
    : Option<(string, Image)>
  {
    var hit := TierHit(names, videoId, status);
    if |hit| == 1 then Some((hit[0], fetch(hit[0]))) else None
  }

  /** This function's `_generate_thumbnail_name`, written out on its own:
      `{video_id}/{label}-{suffix}-{sanitised url}.png`. */
  function LegacyName(videoId: string, url: string, labelText: string, uuid: string): (r: string)
    ensures InVideoFolder(r, videoId)
  {
    NameParts(videoId, labelText, UuidSuffix(uuid), SanitiseUrl(url));
    FolderName(videoId, labelText + "-" + UuidSuffix(uuid) + "-" + SanitiseUrl(url));
    videoId + "/" + labelText + "-" + UuidSuffix(uuid) + "-" + SanitiseUrl(url) + ".png"
  }

  /** The two generations name a cropout alike. */
  lemma SameAsProcess(videoId: string, url: string, labelText: string, uuid: string)
    ensures LegacyName(videoId, url, labelText, uuid) == ProcessName(videoId, url, labelText, uuid)
  {
    NameParts(videoId, labelText, UuidSuffix(uuid), SanitiseUrl(url));
  }

  lemma NameParts(v: string, l: string, s: string, n: string)
    ensures v + "/" + l + "-" + s + "-" + n + ".png" == v + "/" + (l + "-" + s + "-" + n) + ".png"
  {
  }

  /** The rows of one thumbnail, all stamped with one time. */
  function LegacyRows(videoId: string, url: string, img: Image, env: Env): (r: seq<AnnotationRow>)
    requires ValidEnv(env)
    ensures |r| == |env.vision(url).objects| + |env.vision(url).faces|
    ensures forall i :: 0 <= i < |r| ==> (r[i].datetimeUpdated == env.now(url)
      && r[i].videoId == videoId && r[i].thumbnailUrl == url)
  {
    ThumbnailRows(videoId, url, img, env.vision(url), (u: string, i: nat) => env.now(url))
  }

  /** The effects of cropping the selected rows `rows[..]` of one
      thumbnail: an upload per row, each followed by its announcement when
      announcing is on. */
  function CropEffects(videoId: string, url: string, img: Image, rows: seq<AnnotationRow>, env: Env)
    : (r: seq<Effect>)
    ensures |r| == (if env.send then 2 * |rows| else |rows|)
  {
    var f := CropStep(videoId, url, img, env);
    ConcatMapLength(rows, f, if env.send then 2 else 1);
    ConcatMap(rows, f)
  }

  /** The effects of cropping the `j`-th selected row: its upload, then,
      when announcing, its public address. */
  function CropOne(videoId: string, url: string, img: Image, row: AnnotationRow, env: Env, j: nat)
    : (r: seq<Effect>)
    ensures |r| == (if env.send then 2 else 1)
  {
    var name := LegacyName(videoId, url, row.labelText, env.uuid(url, j));
    var up := Effect.Upload(env.bucket, name, RelativeCrop(img, row.box));
    if env.send then [up, Publish(env.topic, env.publicUrl(env.bucket, name))] else [up]
  }

  function CropStep(videoId: string, url: string, img: Image, env: Env): (f: (AnnotationRow, nat) -> seq<Effect>)
    ensures forall row, j :: |f(row, j)| == (if env.send then 2 else 1)
  {
    (row: AnnotationRow, j: nat) => CropOne(videoId, url, img, row, env, j)
  }

  /** Cropping one more selected row appends its effects. */
  lemma CropEffectsSnoc(videoId: string, url: string, img: Image, rows: seq<AnnotationRow>, env: Env, j: nat)
    requires j < |rows|
    ensures CropEffects(videoId, url, img, rows[..j + 1], env)
      == CropEffects(videoId, url, img, rows[..j], env) + CropOne(videoId, url, img, rows[j], env, j)
  {
    assert rows[..j + 1][..j] == rows[..j];
  }

  /** `e` uploads to `bucket` under `name` the cut-out of `img` at the
      relative box `box`. */
  predicate UploadsBox(e: Effect, bucket: string, name: string, img: Image, box: Box)
  {
    e == Effect.Upload(bucket, name, RelativeCrop(img, box))
  }

  /** The cut-out uploaded is the one whose box, made relative again, is
      `box`. */
  lemma UploadsBoxCrop(e: Effect, bucket: string, name: string, img: Image, box: Box)
    requires UploadsBox(e, bucket, name, img, box)
    ensures e.Upload? && e.name == name && e.bucket == bucket
    ensures e.crop.CropBox? && Normalise(e.crop.box, img) == box
  {
  }

  /** Cropping effects position by position: the j-th selected row is
      uploaded under the video folder, cut out at its relative box, and
      (when announcing) its public address is published right after. */
  lemma CropEffectsAt(videoId: string, url: string, img: Image, rows: seq<AnnotationRow>, env: Env, j: nat)
    requires j < |rows|
    ensures var r := CropEffects(videoId, url, img, rows, env);
      var name := LegacyName(videoId, url, rows[j].labelText, env.uuid(url, j));
      var k := if env.send then 2 * j else j;
      k < |r| && UploadsBox(r[k], env.bucket, name, img, rows[j].box)
      && (env.send ==> r[k + 1] == Publish(env.topic, env.publicUrl(env.bucket, name)))
  {
    var c := if env.send then 2 else 1;
    var f := CropStep(videoId, url, img, env);
    ConcatMapAt(rows, f, c, j);
    var r := CropEffects(videoId, url, img, rows, env);
    var one := CropOne(videoId, url, img, rows[j], env, j);
    assert r[c * j .. c * j + c] == one;
    assert r[c * j] == one[0];
    if env.send {
      assert r[c * j + 1] == one[1];
    }
  }

  /** `_process_thumbnail` as a reference definition. */
  function ThumbnailOutcome(t: Option<(string, Image)>, videoId: string, env: Env): Outcome
    requires ValidEnv(env)
  {
    match t
    case None => Outcome([], false)
    case Some(pair) =>
      var rows := LegacyRows(videoId, pair.0, pair.1, env);
      var load := if |rows| > 0 then [LoadRows(AnnotationsTableIn(env.dataset), rows)] else [];
      if !(CropAndStore && |CropList| > 0) then Outcome(load, false)
      else if |rows| == 0 then Outcome(load, true)
      else Outcome(load + CropEffects(videoId, pair.0, pair.1, WithLabelIn(rows, CropList), env), false)
  }

  /** `_process_thumbnail`: nothing for a missing thumbnail; otherwise the
      rows are loaded when there are any, and the selected objects are
      cropped one after another. A thumbnail without any annotation has no
      `label` column, so selecting on it raises. */
  method ProcessThumbnail(t: Option<(string, Image)>, videoId: string, env: Env) returns (o: Outcome)
    requires ValidEnv(env)
    ensures o == ThumbnailOutcome(t, videoId, env)
    ensures t.None? ==> o == Outcome([], false)
    ensures o.aborted ==> t.Some? && LegacyRows(videoId, t.value.0, t.value.1, env) == []
  {
    if t.None? {
      return Outcome([], false);
    }
    var url := t.value.0;
    var img := t.value.1;
    var rows := LegacyRows(videoId, url, img, env);
    var effects: seq<Effect> := if |rows| > 0 then [LoadRows(AnnotationsTableIn(env.dataset), rows)] else [];
    if !(CropAndStore && |CropList| > 0) {
      return Outcome(effects, false);
    }
    if |rows| == 0 {
      return Outcome(effects, true);
    }
    var crops := CropSelected(videoId, url, img, WithLabelIn(rows, CropList), env);
    return Outcome(effects + crops, false);
  }

  /** The loop over the selected rows of one thumbnail. */
  method CropSelected(videoId: string, url: string, img: Image, selected: seq<AnnotationRow>, env: Env)
    returns (crops: seq<Effect>)
    ensures crops == CropEffects(videoId, url, img, selected, env)
  {
    crops := [];
    var j := 0;
    while j < |selected|
      invariant 0 <= j <= |selected|
      invariant crops == CropEffects(videoId, url, img, selected[..j], env)
    {
      var name := LegacyName(videoId, url, selected[j].labelText, env.uuid(url, j));
      var step := [Effect.Upload(env.bucket, name, RelativeCrop(img, selected[j].box))];
      if env.send {
        step := step + [Publish(env.topic, env.publicUrl(env.bucket, name))];
      }
      assert step == CropOne(videoId, url, img, selected[j], env, j);
      CropEffectsSnoc(videoId, url, img, selected, env, j);
      crops := crops + step;
      j := j + 1;
    }
    assert selected[..j] == selected;
  }

  // ---------------------------------------------------------------------
  // The run
  // ---------------------------------------------------------------------

  /** The thumbnails in order; an abort ends the run with the effects made
      before it. */
  function RunOutcome(ts: seq<Option<(string, Image)>>, videoId: string, env: Env): Outcome
    requires ValidEnv(env)
  {
    if |ts| == 0 then Outcome([], false)
    else
      var head := ThumbnailOutcome(ts[0], videoId, env);
      if head.aborted then head
      else
        var rest := RunOutcome(ts[1..], videoId, env);
        Outcome(head.effects + rest.effects, rest.aborted)
  }

  /** A run only aborts on a found thumbnail without annotations. */
  lemma {:induction false} AbortNeedsEmptyThumbnail(ts: seq<Option<(string, Image)>>, videoId: string, env: Env)
    requires ValidEnv(env)
    ensures RunOutcome(ts, videoId, env).aborted ==>
      exists i :: 0 <= i < |ts| && ts[i].Some? && LegacyRows(videoId, ts[i].value.0, ts[i].value.1, env) == []
  {
    if |ts| > 0 && RunOutcome(ts, videoId, env).aborted {
      if !ThumbnailOutcome(ts[0], videoId, env).aborted {
        AbortNeedsEmptyThumbnail(ts[1..], videoId, env);
        var i :| 0 <= i < |ts[1..]| && ts[1..][i].Some?
          && LegacyRows(videoId, ts[1..][i].value.0, ts[1..][i].value.1, env) == [];
        assert ts[i + 1] == ts[1..][i];
      }
    }
  }

  /** Without an abort, every thumbnail's effects appear, in tier order. */
  lemma {:induction false} RunConcatenates(ts: seq<Option<(string, Image)>>, videoId: string, env: Env)
    requires ValidEnv(env)
    requires forall i :: 0 <= i < |ts| ==> !ThumbnailOutcome(ts[i], videoId, env).aborted
    ensures !RunOutcome(ts, videoId, env).aborted
    ensures |ts| > 0 ==> (RunOutcome(ts, videoId, env).effects
      == ThumbnailOutcome(ts[0], videoId, env).effects + RunOutcome(ts[1..], videoId, env).effects)
  {
    if |ts| > 0 {
      RunConcatenates(ts[1..], videoId, env);
    }
  }

  /** An outcome preceded by effects already made. */
  function After(effects: seq<Effect>, o: Outcome): Outcome
  {
    Outcome(effects + o.effects, o.aborted)
  }

  /** The run from thumbnail `i` on is thumbnail `i` followed by the run
      from `i + 1` on. */
  lemma RunStep(ts: seq<Option<(string, Image)>>, i: nat, videoId: string, env: Env)
    requires ValidEnv(env) && i < |ts|
    ensures var head := ThumbnailOutcome(ts[i], videoId, env);
      var rest := RunOutcome(ts[i + 1..], videoId, env);
      RunOutcome(ts[i..], videoId, env)
        == if head.aborted then head else After(head.effects, rest)
  {
    assert ts[i..][1..] == ts[i + 1..];
  }

  /** `run`'s loop: the thumbnails in order, stopping at an exception. */
  method ProcessAll(ts: seq<Option<(string, Image)>>, videoId: string, env: Env) returns (o: Outcome)
    requires ValidEnv(env)
    ensures o == RunOutcome(ts, videoId, env)
  {
    var effects: seq<Effect> := [];
    var i := 0;
    while i < |ts|
      invariant 0 <= i <= |ts|
      invariant RunOutcome(ts, videoId, env) == After(effects, RunOutcome(ts[i..], videoId, env))
    {
      var step := ProcessThumbnail(ts[i], videoId, env);
      RunStep(ts, i, videoId, env);
      if step.aborted {
        return After(effects, step);
      }
      AfterAfter(effects, step.effects, RunOutcome(ts[i + 1..], videoId, env));
      effects := effects + step.effects;
      i := i + 1;
    }
    assert ts[i..] == [];
    assert effects + [] == effects;
    o := Outcome(effects, false);
  }

  lemma AfterAfter(a: seq<Effect>, b: seq<Effect>, o: Outcome)
    ensures After(a, After(b, o)) == After(a + b, o)
  {
    assert a + (b + o.effects) == (a + b) + o.effects;
  }

  /** `run`: the four tiers' thumbnails, each processed in turn. */
  method Run(videoId: string, status: string -> int, fetch: string -> Image, env: Env) returns (o: Outcome)
    requires ValidEnv(env)
    ensures o == RunOutcome(
      [TierThumbnail(Tiers[0], videoId, status, fetch), TierThumbnail(Tiers[1], videoId, status, fetch),
       TierThumbnail(Tiers[2], videoId, status, fetch), TierThumbnail(Tiers[3], videoId, status, fetch)],
      videoId, env)
  {
    var t0 := BestThumbnail(Tiers[0], videoId, status, fetch);
    var t1 := BestThumbnail(Tiers[1], videoId, status, fetch);
    var t2 := BestThumbnail(Tiers[2], videoId, status, fetch);
    var t3 := BestThumbnail(Tiers[3], videoId, status, fetch);
    o := ProcessAll([t0, t1, t2, t3], videoId, env);
  }
}
