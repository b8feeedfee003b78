/** What the thumbnail functions share: the thumbnail URL template, the four
    tiers of file names, image sizes, boxes, the Vision annotation shapes and
    the first-success probe over a tier. */
module Thumbnails {
  import opened Wrappers

  // ---------------------------------------------------------------------
  // URLs and tiers
  // ---------------------------------------------------------------------

  const UrlPrefix: string := "https://i.ytimg.com/vi/"

  /** `'https://i.ytimg.com/vi/{video_id}/{thumbnail_name}.jpg'`. */
  function ThumbnailUrl(videoId: string, name: string): string
  {
    UrlPrefix + videoId + "/" + name + ".jpg"
  }

  /** The URL determines the file name: different names give different
      URLs for one video. */
  lemma ThumbnailUrlInjective(videoId: string, a: string, b: string)
    ensures ThumbnailUrl(videoId, a) == ThumbnailUrl(videoId, b) <==> a == b
  {
    if ThumbnailUrl(videoId, a) == ThumbnailUrl(videoId, b) {
      UrlDeterminesName(videoId, a, b);
    }
  }

  lemma UrlDeterminesName(videoId: string, a: string, b: string)
    requires ThumbnailUrl(videoId, a) == ThumbnailUrl(videoId, b)
    ensures a == b
  {
    var p := UrlPrefix + videoId + "/";
    var ua := ThumbnailUrl(videoId, a);
    var ub := ThumbnailUrl(videoId, b);
    assert ua == p + a + ".jpg";
    assert ub == p + b + ".jpg";
    assert |a| == |b|;
    forall i | 0 <= i < |a|
      ensures a[i] == b[i]
    {
      assert ua[|p| + i] == a[i];
      assert ub[|p| + i] == b[i];
    }
  }

  const TierDefault: seq<string> :=
    ["maxresdefault", "hq720", "sddefault", "hqdefault", "0", "mqdefault", "default"]
  const Tier1: seq<string> := ["sd1", "hq1", "mq1", "1"]
  const Tier2: seq<string> := ["sd2", "hq2", "mq2", "2"]
  const Tier3: seq<string> := ["sd3", "hq3", "mq3", "3"]

  /** The four tiers in the order the functions probe them. */
  const Tiers: seq<seq<string>> := [TierDefault, Tier1, Tier2, Tier3]

  /** No file name belongs to two tiers. */
  lemma TiersDisjoint()
    ensures forall i, j, n :: 0 <= i < j < |Tiers| && n in Tiers[i] ==> n !in Tiers[j]
  {
  }

  // ---------------------------------------------------------------------
  // Images, boxes and Vision annotations
  // ---------------------------------------------------------------------

  /** An image dimension in pixels; decoded thumbnails are never empty. */
  type Pixels = x: int | x >= 1 witness 1

  /** A decoded thumbnail; only its size matters to the model. */
  datatype Image = Image(width: Pixels, height: Pixels)

  /** A rectangle given by its top-left and bottom-right corners. */
  datatype Box = Box(left: real, top: real, right: real, bottom: real)

  /** What a crop of a thumbnail yields: the whole image, or the image cut
      to a box in pixels. */
  datatype Crop = FullImage | CropBox(box: Box)

  datatype Vertex = Vertex(x: real, y: real)

  /** A localised object: its name, its score and the vertices of its
      bounding polygon, normalised to the image size. */
  datatype ObjectAnnotation = ObjectAnnotation(name: string, score: real, normalizedVertices: seq<Vertex>)

  /** A detected face: its confidence and the vertices of its bounding
      polygon, in pixels. */
  datatype FaceAnnotation = FaceAnnotation(detectionConfidence: real, vertices: seq<Vertex>)

  /** A parsed annotation: label, confidence and box. */
  datatype Annotation = Annotation(labelText: string, confidence: real, box: Box)

  /** The label every face annotation carries. */
  const FaceLabel: string := "Face"

  /** The box spanned by vertices 0 and 2 of a bounding polygon. */
  function CornerBox(vs: seq<Vertex>): (b: Box)
    requires |vs| >= 3
    ensures b.left == vs[0].x && b.top == vs[0].y
    ensures b.right == vs[2].x && b.bottom == vs[2].y
  {
    Box(vs[0].x, vs[0].y, vs[2].x, vs[2].y)
  }

  /** `_parse_vision_object_annotations`: the object's own name and score,
      and normalised vertices 0 and 2 taken unchanged. */
  function ParseObject(o: ObjectAnnotation): (a: Annotation)
    requires |o.normalizedVertices| >= 3
    ensures a.labelText == o.name && a.confidence == o.score
    ensures a.box == CornerBox(o.normalizedVertices)
  {
    Annotation(o.name, o.score, CornerBox(o.normalizedVertices))
  }

  /** `_parse_face_annotations`: always labelled `Face`, box in pixels. */
  function ParseFace(f: FaceAnnotation): (a: Annotation)
    requires |f.vertices| >= 3
    ensures a.labelText == FaceLabel && a.confidence == f.detectionConfidence
    ensures a.box == CornerBox(f.vertices)
  {
    Annotation(FaceLabel, f.detectionConfidence, CornerBox(f.vertices))
  }

  /** Divides a pixel box by the image size. */
  function Normalise(b: Box, img: Image): Box
  {
    Box(b.left / img.width as real, b.top / img.height as real,
        b.right / img.width as real, b.bottom / img.height as real)
  }

  /** Multiplies a relative box by the image size. */
  function Scale(b: Box, img: Image): Box
  {
    Box(b.left * img.width as real, b.top * img.height as real,
        b.right * img.width as real, b.bottom * img.height as real)
  }

  /** Scaling undoes normalising: a face box, made relative and then cropped
      relatively, is the pixel box Vision reported. */
  lemma ScaleNormalise(b: Box, img: Image)
    ensures Scale(Normalise(b, img), img) == b
  {
  }

  /** Normalising undoes scaling. */
  lemma NormaliseScale(b: Box, img: Image)
    ensures Normalise(Scale(b, img), img) == b
  {
  }

  /** What Vision reports for one thumbnail. */
  datatype Vision = Vision(objects: seq<ObjectAnnotation>, faces: seq<FaceAnnotation>)

  /** Vision's bounding polygons have (at least) the three vertices the
      parsers index. */
  predicate WellFormedVision(v: Vision)
  {
    (forall i :: 0 <= i < |v.objects| ==> |v.objects[i].normalizedVertices| >= 3)
    && (forall i :: 0 <= i < |v.faces| ==> |v.faces[i].vertices| >= 3)
  }

  /** The face annotations of one image, parsed and made relative by
      dividing by the image width and height. */
  function RelativeFaces(faces: seq<FaceAnnotation>, img: Image): (r: seq<Annotation>)
    requires forall i :: 0 <= i < |faces| ==> |faces[i].vertices| >= 3
    ensures |r| == |faces|
    ensures forall i :: 0 <= i < |faces| ==>
      r[i].labelText == FaceLabel && r[i].confidence == faces[i].detectionConfidence
      && Scale(r[i].box, img) == CornerBox(faces[i].vertices)
  {
    if |faces| == 0 then []
    else
      var f := ParseFace(faces[0]);
      ScaleNormalise(f.box, img);
      [Annotation(f.labelText, f.confidence, Normalise(f.box, img))] + RelativeFaces(faces[1..], img)
  }

  /** The parsed object annotations, boxes unchanged. */
  function ParsedObjects(objects: seq<ObjectAnnotation>): (r: seq<Annotation>)
    requires forall i :: 0 <= i < |objects| ==> |objects[i].normalizedVertices| >= 3
    ensures |r| == |objects|
    ensures forall i :: 0 <= i < |objects| ==>
      r[i].labelText == objects[i].name && r[i].confidence == objects[i].score
      && r[i].box == CornerBox(objects[i].normalizedVertices)
  {
    if |objects| == 0 then []
    else [ParseObject(objects[0])] + ParsedObjects(objects[1..])
  }

  /** `_localized_object_annotations_from_image` extended by
      `_face_annotations_from_image`: objects first, then faces. */
  function Annotations(v: Vision, img: Image): (r: seq<Annotation>)
    requires WellFormedVision(v)
    ensures |r| == |v.objects| + |v.faces|
    ensures r[..|v.objects|] == ParsedObjects(v.objects)
    ensures r[|v.objects|..] == RelativeFaces(v.faces, img)
  {
    ParsedObjects(v.objects) + RelativeFaces(v.faces, img)
  }

  // ---------------------------------------------------------------------
  // The first-success probe over one tier
  // ---------------------------------------------------------------------

  /** The index of the first name in `names` whose URL answers 200. */
  function FirstOk(names: seq<string>, videoId: string, status: string -> int): (r: Option<nat>)
    ensures r.Some? ==> (r.value < |names|
      && status(ThumbnailUrl(videoId, names[r.value])) == 200
      && forall j :: 0 <= j < r.value ==> status(ThumbnailUrl(videoId, names[j])) != 200)
    ensures r.None? ==> forall j :: 0 <= j < |names| ==> status(ThumbnailUrl(videoId, names[j])) != 200
  {
    if |names| == 0 then None
    else if status(ThumbnailUrl(videoId, names[0])) == 200 then Some(0)
    else
      match FirstOk(names[1..], videoId, status)
      case None => None
      case Some(k) => Some(k + 1)
  }

  /** `_get_best_resolution_thumbnail`'s loop: requests the names' URLs in
      list order and stops at the first that answers 200. Each name's URL is
      fetched twice, streamed for the image and again for the status code.
      `tried` lists the URLs requested, in order; no name after the
      successful one is tried. */
  method ProbeTier(names: seq<string>, videoId: string, status: string -> int)
    returns (found: Option<string>, tried: seq<string>)
    ensures found.Some? <==> FirstOk(names, videoId, status).Some?
    ensures found.Some? ==> (
      var k := FirstOk(names, videoId, status).value;
      found.value == ThumbnailUrl(videoId, names[k]) && |tried| == 2 * (k + 1))
    ensures found.None? ==> |tried| == 2 * |names|
    ensures forall j :: 0 <= j < |tried| ==> j / 2 < |names| && tried[j] == ThumbnailUrl(videoId, names[j / 2])
  {
    tried := [];
    var i := 0;
    while i < |names|
      invariant 0 <= i <= |names|
      invariant |tried| == 2 * i
      invariant forall j :: 0 <= j < |tried| ==> j / 2 < i && tried[j] == ThumbnailUrl(videoId, names[j / 2])
      invariant forall j :: 0 <= j < i ==> status(ThumbnailUrl(videoId, names[j])) != 200
    {
      var url := ThumbnailUrl(videoId, names[i]);
      tried := tried + [url, url];
      if status(url) == 200 {
        FirstOkIsFirst(names, videoId, status, i);
        return Some(url), tried;
      }
      i := i + 1;
    }
    FirstOkNone(names, videoId, status);
    return None, tried;
  }

  /** The first index that answers 200 after a run of failures is the one
      `FirstOk` finds. */
  lemma {:induction false} FirstOkIsFirst(names: seq<string>, videoId: string, status: string -> int, i: nat)
    requires i < |names| && status(ThumbnailUrl(videoId, names[i])) == 200
    requires forall j :: 0 <= j < i ==> status(ThumbnailUrl(videoId, names[j])) != 200
    ensures FirstOk(names, videoId, status) == Some(i)
  {
    if i > 0 {
      FirstOkIsFirst(names[1..], videoId, status, i - 1);
    }
  }

  lemma {:induction false} FirstOkNone(names: seq<string>, videoId: string, status: string -> int)
    requires forall j :: 0 <= j < |names| ==> status(ThumbnailUrl(videoId, names[j])) != 200
    ensures FirstOk(names, videoId, status) == None
  {
    if |names| > 0 {
      FirstOkNone(names[1..], videoId, status);
    }
  }
}
