/** The thumbnail processor (`youtube_thumbnails_process`): finds the best
    thumbnail of each of the four tiers, annotates them with Vision, writes
    one row per annotation and, when switched on, uploads a cropout of every
    face and person. */
module ThumbnailsProcess {
  import opened Wrappers
  import opened Text
  import opened BlobNames
  import opened Dicts
  import opened Thumbnails
  import GenerateCropouts
  import Requests

  /** `MESSAGE_SCHEMA`: the message names the video as text. */
  const MessageSchema: Requests.Schema :=
    Requests.Schema([("video_id", Requests.TString)], ["video_id"])

  /** The warehouse table of the annotations. */
  const AnnotationsTable: string := "YouTubeThumbnailsWithAnnotations"

  /** The labels whose objects are cropped and stored. */
  const ObjectsToCrop: seq<string> := ["Face", "Person"]

  /** The lower-cased settings that switch cropping on. */
  const TruthyFlags: seq<string> := ["true", "1", "t"]

  // ---------------------------------------------------------------------
  // The cropping switch
  // ---------------------------------------------------------------------

  /** `VID_EXCL_CROP_AND_STORE_OBJECTS`, default `'False'`, lower-cased and
      looked up among the truthy spellings. */
  function CropEnabled(setting: Option<string>): (r: bool)
    ensures setting.None? ==> !r
    ensures r ==> |setting.value| == 1 || |setting.value| == 4
  {
    Lower(setting.GetOr("False")) in TruthyFlags
  }

  lemma LowerCharIdempotent(c: char)
    ensures LowerChar(LowerChar(c)) == LowerChar(c)
  {
  }

  lemma LowerIdempotent(s: string)
    ensures Lower(Lower(s)) == Lower(s)
  {
    forall i | 0 <= i < |s|
      ensures Lower(Lower(s))[i] == Lower(s)[i]
    {
      LowerCharIdempotent(s[i]);
    }
  }

  /** The switch ignores letter case. */
  lemma CropEnabledIgnoresCase(s: string)
    ensures CropEnabled(Some(s)) == CropEnabled(Some(Lower(s)))
  {
    LowerIdempotent(s);
  }

  /** `TRUE`, `True`, `T` and `1` switch cropping on; anything of another
      length, such as `yes`, leaves it off. */
  lemma CropEnabledExamples()
    ensures CropEnabled(Some("TRUE")) && CropEnabled(Some("T")) && CropEnabled(Some("1"))
    ensures !CropEnabled(Some("yes"))
  {
    assert Lower("TRUE") == "true";
    assert Lower("T") == "t";
    assert Lower("1") == "1";
  }

  // ---------------------------------------------------------------------
  // Probing the four tiers
  // ---------------------------------------------------------------------

  /** The URL a tier contributes: the first of its names that answers 200. */
  function TierHit(names: seq<string>, videoId: string, status: string -> int): (r: seq<string>)
    ensures |r| <= 1
    ensures |r| == 1 <==> exists k :: 0 <= k < |names| && status(ThumbnailUrl(videoId, names[k])) == 200
    ensures |r| == 1 ==> exists k :: 0 <= k < |names| && r[0] == ThumbnailUrl(videoId, names[k])
  {
    match FirstOk(names, videoId, status)
    case None => []
    case Some(k) => [ThumbnailUrl(videoId, names[k])]
  }

  /** The thumbnails found, tier after tier. */
  function FoundUrls(videoId: string, status: string -> int): seq<string>
  {
    TierHit(Tiers[0], videoId, status) + TierHit(Tiers[1], videoId, status)
    + TierHit(Tiers[2], videoId, status) + TierHit(Tiers[3], videoId, status)
  }

  /** The found thumbnails with their downloaded images, as the dictionary
      `run` builds. */
  function FoundThumbnails(videoId: string, status: string -> int, fetch: string -> Image): (r: seq<(string, Image)>)
    ensures Keys(r) == FoundUrls(videoId, status)
    ensures forall i :: 0 <= i < |r| ==> r[i].1 == fetch(r[i].0)
  {
    var urls := FoundUrls(videoId, status);
    seq(|urls|, i requires 0 <= i < |urls| => (urls[i], fetch(urls[i])))
  }

  /** `_get_best_resolution_thumbnail`: the first URL of the tier answering
      200 with its image, or the empty dictionary. */
  method BestThumbnail(names: seq<string>, videoId: string, status: string -> int, fetch: string -> Image)
    returns (d: seq<(string, Image)>)
    ensures Keys(d) == TierHit(names, videoId, status)
    ensures forall i :: 0 <= i < |d| ==> d[i].1 == fetch(d[i].0)
  {
    var found, _ := ProbeTier(names, videoId, status);
    match found
    case None => d := [];
    case Some(u) => d := [(u, fetch(u))];
  }

  /** URLs from two different tiers never coincide. */
  lemma TierUrlsDiffer(videoId: string, a: nat, b: nat, x: string, y: string)
    requires a < b < |Tiers|
    requires x in Tiers[a] && y in Tiers[b]
    ensures ThumbnailUrl(videoId, x) != ThumbnailUrl(videoId, y)
  {
    TiersDisjoint();
    ThumbnailUrlInjective(videoId, x, y);
  }

  /** What a tier contributes is a URL of one of its names. */
  lemma TierHitFrom(t: nat, videoId: string, status: string -> int, u: string)
    requires t < |Tiers| && u in TierHit(Tiers[t], videoId, status)
    ensures exists x :: x in Tiers[t] && u == ThumbnailUrl(videoId, x)
  {
    var k :| 0 <= k < |Tiers[t]| && u == ThumbnailUrl(videoId, Tiers[t][k]);
    assert Tiers[t][k] in Tiers[t];
  }

  lemma TierHitsDisjoint(videoId: string, status: string -> int, a: nat, b: nat, u: string, w: string)
    requires a < b < |Tiers|
    requires u in TierHit(Tiers[a], videoId, status) && w in TierHit(Tiers[b], videoId, status)
    ensures u != w
  {
    TierHitFrom(a, videoId, status, u);
    TierHitFrom(b, videoId, status, w);
    var x :| x in Tiers[a] && u == ThumbnailUrl(videoId, x);
    var y :| y in Tiers[b] && w == ThumbnailUrl(videoId, y);
    TierUrlsDiffer(videoId, a, b, x, y);
  }

  /** At most four thumbnails are found, all different. */
  lemma FoundUrlsDistinct(videoId: string, status: string -> int)
    ensures |FoundUrls(videoId, status)| <= 4
    ensures forall i, j :: 0 <= i < j < |FoundUrls(videoId, status)| ==>
      FoundUrls(videoId, status)[i] != FoundUrls(videoId, status)[j]
  {
    var h0 := TierHit(Tiers[0], videoId, status);
    var h1 := TierHit(Tiers[1], videoId, status);
    var h2 := TierHit(Tiers[2], videoId, status);
    var h3 := TierHit(Tiers[3], videoId, status);
    var hs := [h0, h1, h2, h3];
    var urls := FoundUrls(videoId, status);
    forall i, j | 0 <= i < j < |urls|
      ensures urls[i] != urls[j]
    {
      var ti := TierOf(hs, i);
      var tj := TierOf(hs, j);
      assert urls == hs[0] + hs[1] + hs[2] + hs[3];
      TierIndex(hs, i);
      TierIndex(hs, j);
      TierHitsDisjoint(videoId, status, ti, tj, urls[i], urls[j]);
    }
  }

  /** The tier holding position `i` of four concatenated hits. */
  function TierOf(hs: seq<seq<string>>, i: nat): nat
    requires |hs| == 4 && forall t :: 0 <= t < 4 ==> |hs[t]| <= 1
  {
    if i < |hs[0]| then 0
    else if i < |hs[0]| + |hs[1]| then 1
    else if i < |hs[0]| + |hs[1]| + |hs[2]| then 2
    else 3
  }

  lemma TierIndex(hs: seq<seq<string>>, i: nat)
    requires |hs| == 4 && forall t :: 0 <= t < 4 ==> |hs[t]| <= 1
    requires i < |hs[0] + hs[1] + hs[2] + hs[3]|
    ensures var t := TierOf(hs, i); t < 4 && (hs[0] + hs[1] + hs[2] + hs[3])[i] in hs[t]
    ensures forall j :: 0 <= j < i ==> TierOf(hs, j) < TierOf(hs, i)
  {
  }

  /** `_process_video`'s union of the four tier dictionaries: the tiers'
      URLs never collide, so the union lists them tier after tier. */
  method LookUpThumbnails(videoId: string, status: string -> int, fetch: string -> Image)
    returns (thumbs: seq<(string, Image)>)
    ensures thumbs == FoundThumbnails(videoId, status, fetch)
  {
    var d0 := BestThumbnail(Tiers[0], videoId, status, fetch);
    var d1 := BestThumbnail(Tiers[1], videoId, status, fetch);
    var d2 := BestThumbnail(Tiers[2], videoId, status, fetch);
    var d3 := BestThumbnail(Tiers[3], videoId, status, fetch);
    TierDictsUnite(d0, d1, d2, d3, videoId, status, fetch);
    thumbs := PutAll(PutAll(PutAll(d0, d1), d2), d3);
  }

  /** Pairs that each hold their URL's image still do once concatenated. */
  lemma FetchedAppend(a: seq<(string, Image)>, b: seq<(string, Image)>, fetch: string -> Image)
    requires forall i :: 0 <= i < |a| ==> a[i].1 == fetch(a[i].0)
    requires forall i :: 0 <= i < |b| ==> b[i].1 == fetch(b[i].0)
    ensures forall i :: 0 <= i < |a + b| ==> (a + b)[i].1 == fetch((a + b)[i].0)
  {
    forall i | |a| <= i < |a + b|
      ensures (a + b)[i].1 == fetch((a + b)[i].0)
    {
      assert (a + b)[i] == b[i - |a|];
    }
  }

  /** The union of the four tier dictionaries is the found thumbnails. */
  lemma TierDictsUnite(d0: seq<(string, Image)>, d1: seq<(string, Image)>, d2: seq<(string, Image)>,
                       d3: seq<(string, Image)>, videoId: string, status: string -> int, fetch: string -> Image)
    requires Keys(d0) == TierHit(Tiers[0], videoId, status) && Keys(d1) == TierHit(Tiers[1], videoId, status)
    requires Keys(d2) == TierHit(Tiers[2], videoId, status) && Keys(d3) == TierHit(Tiers[3], videoId, status)
    requires forall i :: 0 <= i < |d0| ==> d0[i].1 == fetch(d0[i].0)
    requires forall i :: 0 <= i < |d1| ==> d1[i].1 == fetch(d1[i].0)
    requires forall i :: 0 <= i < |d2| ==> d2[i].1 == fetch(d2[i].0)
    requires forall i :: 0 <= i < |d3| ==> d3[i].1 == fetch(d3[i].0)
    ensures PutAll(PutAll(PutAll(d0, d1), d2), d3) == FoundThumbnails(videoId, status, fetch)
  {
    FoundUrlsDistinct(videoId, status);
    var all := d0 + d1 + d2 + d3;
    ConcatKeys(d0, d1, d2, d3);
    DistinctFromKeys(all);
    UnionOfTiers(d0, d1, d2, d3);
    FetchedAppend(d0, d1, fetch);
    FetchedAppend(d0 + d1, d2, fetch);
    FetchedAppend(d0 + d1 + d2, d3, fetch);
    PairsByKeys(all, FoundThumbnails(videoId, status, fetch), fetch);
  }

  lemma ConcatKeys<V>(d0: seq<(string, V)>, d1: seq<(string, V)>, d2: seq<(string, V)>, d3: seq<(string, V)>)
    ensures Keys(d0 + d1 + d2 + d3) == Keys(d0) + Keys(d1) + Keys(d2) + Keys(d3)
  {
    KeysAppend(d0, d1);
    KeysAppend(d0 + d1, d2);
    KeysAppend(d0 + d1 + d2, d3);
  }

  lemma DistinctFromKeys<V>(d: seq<(string, V)>)
    requires forall i, j :: 0 <= i < j < |Keys(d)| ==> Keys(d)[i] != Keys(d)[j]
    ensures DistinctKeys(d)
  {
    forall i, j | 0 <= i < j < |d|
      ensures d[i].0 != d[j].0
    {
      assert Keys(d)[i] == d[i].0 && Keys(d)[j] == d[j].0;
    }
  }

  /** Dictionaries whose concatenation has distinct keys unite into that
      concatenation. */
  lemma UnionOfTiers(d0: seq<(string, Image)>, d1: seq<(string, Image)>, d2: seq<(string, Image)>, d3: seq<(string, Image)>)
    requires DistinctKeys(d0 + d1 + d2 + d3)
    ensures PutAll(PutAll(PutAll(d0, d1), d2), d3) == d0 + d1 + d2 + d3
  {
    var all := d0 + d1 + d2 + d3;
    DistinctSlice(all, 0, |d0|);
    DistinctSlice(all, |d0|, |d0| + |d1|);
    DistinctSlice(all, |d0| + |d1|, |d0| + |d1| + |d2|);
    DistinctSlice(all, |d0| + |d1| + |d2|, |all|);
    DistinctSlice(all, 0, |d0| + |d1|);
    DistinctSlice(all, 0, |d0| + |d1| + |d2|);
    assert all[0..|d0|] == d0;
    assert all[|d0|..|d0| + |d1|] == d1;
    assert all[|d0| + |d1|..|d0| + |d1| + |d2|] == d2;
    assert all[|d0| + |d1| + |d2|..|all|] == d3;
    assert all[0..|d0| + |d1|] == d0 + d1;
    assert all[0..|d0| + |d1| + |d2|] == d0 + d1 + d2;
    DisjointParts(all, |d0|, |d0| + |d1|);
    DisjointUnion(d0, d1);
    DisjointParts(all, |d0| + |d1|, |d0| + |d1| + |d2|);
    DisjointUnion(d0 + d1, d2);
    DisjointParts(all, |d0| + |d1| + |d2|, |all|);
    DisjointUnion(d0 + d1 + d2, d3);
  }

  lemma DistinctSlice<V>(d: seq<(string, V)>, lo: nat, hi: nat)
    requires lo <= hi <= |d| && DistinctKeys(d)
    ensures DistinctKeys(d[lo..hi])
  {
    forall i, j | 0 <= i < j < hi - lo
      ensures d[lo..hi][i].0 != d[lo..hi][j].0
    {
      assert d[lo..hi][i] == d[lo + i] && d[lo..hi][j] == d[lo + j];
    }
  }

  lemma DisjointParts<V>(d: seq<(string, V)>, mid: nat, hi: nat)
    requires mid <= hi <= |d| && DistinctKeys(d)
    ensures forall i, j :: 0 <= i < |d[..mid]| && 0 <= j < |d[mid..hi]| ==> d[..mid][i].0 != d[mid..hi][j].0
  {
    forall i, j | 0 <= i < |d[..mid]| && 0 <= j < |d[mid..hi]|
      ensures d[..mid][i].0 != d[mid..hi][j].0
    {
      assert d[..mid][i] == d[i] && d[mid..hi][j] == d[mid + j];
    }
  }

  /** Two lists with the same keys whose values are all `fetch` of the key
      are equal. */
  lemma PairsByKeys(a: seq<(string, Image)>, b: seq<(string, Image)>, fetch: string -> Image)
    requires Keys(a) == Keys(b)
    requires forall i :: 0 <= i < |a| ==> a[i].1 == fetch(a[i].0)
    requires forall i :: 0 <= i < |b| ==> b[i].1 == fetch(b[i].0)
    ensures a == b
  {
    assert |a| == |Keys(a)| == |b|;
    forall i | 0 <= i < |a|
      ensures a[i] == b[i]
    {
      assert Keys(a)[i] == Keys(b)[i];
    }
  }

  // ---------------------------------------------------------------------
  // Annotation rows
  // ---------------------------------------------------------------------

  /** One row of the annotations table. */
  datatype AnnotationRow = AnnotationRow(
    videoId: string,
    thumbnailUrl: string,
    labelText: string,
    confidence: real,
    box: Box,
    datetimeUpdated: string)

  /** `_extract_objects_df_from_thumbnail` with the video and URL columns
      inserted: one row per annotation, objects first, then faces (boxes
      relative to the image). `clock(url, i)` is the time read when the
      thumbnail's i-th annotation was parsed. */
  function ThumbnailRows(videoId: string, url: string, img: Image, v: Vision,
                         clock: (string, nat) -> string): (r: seq<AnnotationRow>)
    requires WellFormedVision(v)
    ensures |r| == |v.objects| + |v.faces|
    ensures forall i :: 0 <= i < |r| ==>
      var a := Annotations(v, img)[i];
      r[i] == AnnotationRow(videoId, url, a.labelText, a.confidence, a.box, clock(url, i))
  {
    var anns := Annotations(v, img);
    seq(|anns|, i requires 0 <= i < |anns| =>
      AnnotationRow(videoId, url, anns[i].labelText, anns[i].confidence, anns[i].box, clock(url, i)))
  }

  /** The rows of all thumbnails, thumbnail after thumbnail
      (`pd.concat` of the per-thumbnail frames). */
  function ExtractedRows(videoId: string, thumbs: seq<(string, Image)>, vision: string -> Vision,
                         clock: (string, nat) -> string): seq<AnnotationRow>
    requires forall u :: WellFormedVision(vision(u))
  {
    if |thumbs| == 0 then []
    else
      var last := thumbs[|thumbs| - 1];
      ExtractedRows(videoId, thumbs[..|thumbs| - 1], vision, clock)
      + ThumbnailRows(videoId, last.0, last.1, vision(last.0), clock)
  }

  /** Every row carries the processed video and one of the found
      thumbnails' URLs. */
  lemma {:induction false} ExtractedRowsBelong(videoId: string, thumbs: seq<(string, Image)>,
                                               vision: string -> Vision, clock: (string, nat) -> string)
    requires forall u :: WellFormedVision(vision(u))
    ensures forall x :: x in ExtractedRows(videoId, thumbs, vision, clock) ==>
      x.videoId == videoId && x.thumbnailUrl in Keys(thumbs)
  {
    if |thumbs| > 0 {
      var init := thumbs[..|thumbs| - 1];
      ExtractedRowsBelong(videoId, init, vision, clock);
      assert forall u :: u in Keys(init) ==> u in Keys(thumbs) by {
        forall u | u in Keys(init)
          ensures u in Keys(thumbs)
        {
          var i :| 0 <= i < |init| && Keys(init)[i] == u;
          assert Keys(thumbs)[i] == u;
        }
      }
      assert Keys(thumbs)[|thumbs| - 1] == thumbs[|thumbs| - 1].0;
    }
  }

  // ---------------------------------------------------------------------
  // Cropouts
  // ---------------------------------------------------------------------

  /** `rows[rows['label'].isin(labels)]`: the rows whose label is listed,
      in order. */
  function WithLabelIn(rows: seq<AnnotationRow>, labels: seq<string>): (r: seq<AnnotationRow>)
    ensures |r| <= |rows|
    ensures forall x :: x in r <==> x in rows && x.labelText in labels
  {
    if |rows| == 0 then []
    else
      var last := rows[|rows| - 1];
      WithLabelIn(rows[..|rows| - 1], labels) + (if last.labelText in labels then [last] else [])
  }

  /** The rows `_process_video` crops. */
  function Wanted(rows: seq<AnnotationRow>): seq<AnnotationRow>
  {
    WithLabelIn(rows, ObjectsToCrop)
  }

  /** The rows on one thumbnail, in order. */
  function OnThumbnail(rows: seq<AnnotationRow>, url: string): (r: seq<AnnotationRow>)
    ensures |r| <= |rows|
    ensures forall x :: x in r <==> x in rows && x.thumbnailUrl == url
  {
    if |rows| == 0 then []
    else
      var last := rows[|rows| - 1];
      OnThumbnail(rows[..|rows| - 1], url) + (if last.thumbnailUrl == url then [last] else [])
  }

  /** `_cropout_from_image` here always reads the box as relative. */
  function RelativeCrop(img: Image, b: Box): (c: Crop)
    ensures c.CropBox? && Normalise(c.box, img) == b
  {
    NormaliseScale(b, img);
    CropBox(Scale(b, img))
  }

  /** A face box made relative by the annotation step is cut out at the
      pixel box Vision reported. */
  lemma FaceCroppedAtPixels(img: Image, b: Box)
    ensures RelativeCrop(img, Normalise(b, img)) == CropBox(b)
  {
    ScaleNormalise(b, img);
  }

  /** Whether `name` lies in the video's folder and is a PNG name. */
  predicate InVideoFolder(name: string, videoId: string)
  {
    |name| >= |videoId| + 5
    && name[..|videoId| + 1] == videoId + "/"
    && name[|name| - 4..] == ".png"
  }

  /** `_generate_thumbnail_name`: the generator's cropout name, placed in
      the video's folder and given a `.png` extension. */
  function ProcessName(videoId: string, url: string, labelText: string, uuid: string): (r: string)
    ensures InVideoFolder(r, videoId)
    ensures r[|videoId| + 1..|r| - 4] == GenerateCropouts.ThumbnailName(url, labelText, uuid)
  {
    var inner := GenerateCropouts.ThumbnailName(url, labelText, uuid);
    FolderName(videoId, inner);
    videoId + "/" + inner + ".png"
  }

  /** `{video_id}/{inner}.png` splits back into its three parts. */
  lemma FolderName(videoId: string, inner: string)
    ensures var r := videoId + "/" + inner + ".png";
      && InVideoFolder(r, videoId)
      && r[|videoId| + 1..|r| - 4] == inner
  {
    var r := videoId + "/" + inner + ".png";
    assert r[..|videoId| + 1] == videoId + "/";
    assert r[|r| - 4..] == ".png";
    assert r[|videoId| + 1..|r| - 4] == inner;
  }

  /** The (name, cropout) assignments `_generate_cropouts_from_image` makes
      for the selected rows of one thumbnail; `uuid(url, j)` is the random
      identifier drawn for the j-th of them. */
  function CropPairs(img: Image, rows: seq<AnnotationRow>, uuid: (string, nat) -> string): (r: seq<(string, Crop)>)
    ensures |r| == |rows|
    ensures forall j :: 0 <= j < |rows| ==>
      r[j].0 == ProcessName(rows[j].videoId, rows[j].thumbnailUrl, rows[j].labelText, uuid(rows[j].thumbnailUrl, j))
      && r[j].1.CropBox? && Normalise(r[j].1.box, img) == rows[j].box
  {
    seq(|rows|, j requires 0 <= j < |rows| =>
      (ProcessName(rows[j].videoId, rows[j].thumbnailUrl, rows[j].labelText, uuid(rows[j].thumbnailUrl, j)),
       RelativeCrop(img, rows[j].box)))
  }

  /** `cropouts = cropouts | _generate_cropouts_from_image(...)` over the
      found thumbnails, in order. */
  function CropoutDict(thumbs: seq<(string, Image)>, wanted: seq<AnnotationRow>,
                       uuid: (string, nat) -> string): seq<(string, Crop)>
  {
    if |thumbs| == 0 then []
    else
      var last := thumbs[|thumbs| - 1];
      var here := PutAll([], CropPairs(last.1, OnThumbnail(wanted, last.0), uuid));
      PutAll(CropoutDict(thumbs[..|thumbs| - 1], wanted, uuid), here)
  }

  /** Every stored cropout has its own name, and every name lies in the
      folder of the video the rows belong to. */
  lemma {:induction false} CropoutDictShape(thumbs: seq<(string, Image)>, wanted: seq<AnnotationRow>,
                                            uuid: (string, nat) -> string, videoId: string)
    requires forall x :: x in wanted ==> x.videoId == videoId
    ensures DistinctKeys(CropoutDict(thumbs, wanted, uuid))
    ensures forall k :: k in Keys(CropoutDict(thumbs, wanted, uuid)) ==> InVideoFolder(k, videoId)
  {
    if |thumbs| > 0 {
      var init := thumbs[..|thumbs| - 1];
      var last := thumbs[|thumbs| - 1];
      var rows := OnThumbnail(wanted, last.0);
      var pairs := CropPairs(last.1, rows, uuid);
      var here := PutAll([], pairs);
      var before := CropoutDict(init, wanted, uuid);
      CropoutDictShape(init, wanted, uuid, videoId);
      PutAllDistinct([], pairs);
      PutAllDistinct(before, here);
      PutAllKeysFrom([], pairs);
      PutAllKeysFrom(before, here);
      forall k | k in Keys(pairs)
        ensures InVideoFolder(k, videoId)
      {
        var j :| 0 <= j < |pairs| && Keys(pairs)[j] == k;
        assert rows[j] in rows;
      }
    }
  }

  // ---------------------------------------------------------------------
  // The run
  // ---------------------------------------------------------------------

  /** What the run does to the outside world, in order. */
  datatype Effect =
    | InsertRows(table: string, rows: seq<AnnotationRow>)
    | Upload(bucket: string, name: string, crop: Crop)

  /** `_save_image_to_gcs` for each stored cropout, in dictionary order. */
  function UploadsOf(d: seq<(string, Crop)>, bucket: string): (r: seq<Effect>)
    ensures |r| == |d|
    ensures forall i :: 0 <= i < |d| ==> r[i] == Upload(bucket, d[i].0, d[i].1)
  {
    seq(|d|, i requires 0 <= i < |d| => Upload(bucket, d[i].0, d[i].1))
  }

  /** `run` and `_process_video`. A video that already has rows is skipped.
      With no thumbnail found, concatenating no frames raises. The rows are
      written when there are any; with cropping on and no row at all, the
      missing `label` column raises after that. Otherwise every face and
      person is cropped and uploaded once per distinct name. */
  method Run(videoId: string, existingRows: nat, crop: bool, status: string -> int,
             fetch: string -> Image, vision: string -> Vision,
             clock: (string, nat) -> string, uuid: (string, nat) -> string, bucket: string)
    returns (r: Result<seq<Effect>>)
    requires forall u :: WellFormedVision(vision(u))
    ensures existingRows > 0 ==> r == Ok([])
    ensures existingRows == 0 && |FoundUrls(videoId, status)| == 0 ==> r.Err?
    ensures existingRows == 0 && |FoundUrls(videoId, status)| > 0 ==>
      var thumbs := FoundThumbnails(videoId, status, fetch);
      var rows := ExtractedRows(videoId, thumbs, vision, clock);
      var write := if |rows| > 0 then [InsertRows(AnnotationsTable, rows)] else [];
      && (!crop ==> r == Ok(write))
      && (crop && |rows| == 0 ==> r.Err?)
      && (crop && |rows| > 0 ==>
            r == Ok(write + UploadsOf(CropoutDict(thumbs, Wanted(rows), uuid), bucket)))
  {
    if existingRows > 0 {
      return Ok([]);
    }
    var thumbs := LookUpThumbnails(videoId, status, fetch);
    if |thumbs| == 0 {
      return Err("No objects to concatenate");
    }
    var rows := ExtractedRows(videoId, thumbs, vision, clock);
    var effects: seq<Effect> := if |rows| > 0 then [InsertRows(AnnotationsTable, rows)] else [];
    if !crop {
      return Ok(effects);
    }
    if |rows| == 0 {
      return Err("KeyError: 'label'");
    }
    var cropouts := CropoutDict(thumbs, Wanted(rows), uuid);
    return Ok(effects + UploadsOf(cropouts, bucket));
  }

  /** Every upload of a run lies in the processed video's folder and no
      name is uploaded twice. */
  lemma UploadsInVideoFolder(videoId: string, status: string -> int, fetch: string -> Image,
                             vision: string -> Vision, clock: (string, nat) -> string,
                             uuid: (string, nat) -> string)
    requires forall u :: WellFormedVision(vision(u))
    ensures var thumbs := FoundThumbnails(videoId, status, fetch);
      var d := CropoutDict(thumbs, Wanted(ExtractedRows(videoId, thumbs, vision, clock)), uuid);
      DistinctKeys(d) && forall i :: 0 <= i < |d| ==> InVideoFolder(d[i].0, videoId)
  {
    var thumbs := FoundThumbnails(videoId, status, fetch);
    var rows := ExtractedRows(videoId, thumbs, vision, clock);
    ExtractedRowsBelong(videoId, thumbs, vision, clock);
    CropoutDictShape(thumbs, Wanted(rows), uuid, videoId);
    var d := CropoutDict(thumbs, Wanted(rows), uuid);
    forall i | 0 <= i < |d|
      ensures InVideoFolder(d[i].0, videoId)
    {
      assert Keys(d)[i] == d[i].0;
    }
  }
}
