/** The cropout generator (`youtube_thumbnails_generate_cropouts`): groups the
    received objects by thumbnail, crops each object out of its thumbnail,
    uploads every cropout and then inserts one warehouse row per cropout. */
module GenerateCropouts {
  import opened Wrappers
  import opened Text
  import opened BlobNames
  import opened Thumbnails

  /** The warehouse table the cropout rows go to. */
  const TargetTable: string := "YouTubeThumbnailCropouts"

  /** One object of the message. The schema requires the URL, the label and
      the four coordinates; `video_id` and `confidence` are read from every
      object as well, so the model makes them fields. */
  datatype CropObject = CropObject(
    thumbnailUrl: string,
    labelText: string,
    topLeftX: real,
    topLeftY: real,
    bottomRightX: real,
    bottomRightY: real,
    videoId: string,
    confidence: real)

  /** The warehouse row of a cropout (the image object is dropped). */
  datatype CropoutRow = CropoutRow(
    videoId: string,
    thumbnailUrl: string,
    labelText: string,
    confidence: real,
    fileName: string,
    gsFilePath: string,
    fuseFilePath: string,
    datetimeUpdated: string)

  datatype Cropout = Cropout(crop: Crop, row: CropoutRow)

  /** What the run does to the outside world, in order. */
  datatype Effect =
    | Upload(bucket: string, blobPath: string, crop: Crop)
    | InsertRows(table: string, rows: seq<CropoutRow>)

  // ---------------------------------------------------------------------
  // Crop box
  // ---------------------------------------------------------------------

  /** `_cropout_from_image`: a bottom-right corner of (0, 0) means the whole
      image; four coordinates all at most 1 are relative and scaled by the
      image size; otherwise the coordinates are pixels and used as given. */
  function CropoutFromImage(img: Image, tlx: real, tly: real, brx: real, bry: real): (c: Crop)
    ensures brx == 0.0 && bry == 0.0 ==> c == FullImage
    ensures !(brx == 0.0 && bry == 0.0) && tlx <= 1.0 && tly <= 1.0 && brx <= 1.0 && bry <= 1.0
      ==> c.CropBox? && Normalise(c.box, img) == Box(tlx, tly, brx, bry)
    ensures !(brx == 0.0 && bry == 0.0) && !(tlx <= 1.0 && tly <= 1.0 && brx <= 1.0 && bry <= 1.0)
      ==> c == CropBox(Box(tlx, tly, brx, bry))
  {
    if brx == 0.0 && bry == 0.0 then FullImage
    else if tlx <= 1.0 && tly <= 1.0 && brx <= 1.0 && bry <= 1.0 then
      NormaliseScale(Box(tlx, tly, brx, bry), img);
      CropBox(Scale(Box(tlx, tly, brx, bry), img))
    else CropBox(Box(tlx, tly, brx, bry))
  }

  /** The sentinel wins whatever the top-left corner says. */
  lemma SentinelIgnoresTopLeft(img: Image, tlx: real, tly: real, tlx': real, tly': real)
    ensures CropoutFromImage(img, tlx, tly, 0.0, 0.0) == CropoutFromImage(img, tlx', tly', 0.0, 0.0)
  {
  }

  /** A relative box that the annotation step produced from a face (pixel
      box divided by the image size) is cut back out at its pixel position,
      as long as the face reaches beyond the top-left pixel. */
  lemma FaceBoxCroppedAtPixels(img: Image, b: Box)
    requires b.left <= img.width as real && b.right <= img.width as real
    requires b.top <= img.height as real && b.bottom <= img.height as real
    requires b.right != 0.0 || b.bottom != 0.0
    ensures var n := Normalise(b, img);
      CropoutFromImage(img, n.left, n.top, n.right, n.bottom) == CropBox(b)
  {
    var n := Normalise(b, img);
    var w := img.width as real;
    var h := img.height as real;
    QuotientAtMostOne(b.left, w);
    QuotientAtMostOne(b.top, h);
    QuotientAtMostOne(b.right, w);
    QuotientAtMostOne(b.bottom, h);
    ScaleNormalise(b, img);
    assert n.right != 0.0 || n.bottom != 0.0 by {
      if b.right != 0.0 {
        assert n.right * w == b.right;
      } else {
        assert n.bottom * h == b.bottom;
      }
    }
    assert CropoutFromImage(img, n.left, n.top, n.right, n.bottom) == CropBox(Scale(n, img));
  }

  /** A part no larger than the whole is at most one whole. */
  lemma QuotientAtMostOne(x: real, w: real)
    requires w > 0.0 && x <= w
    ensures x / w <= 1.0
  {
    assert x / w * w == x;
  }

  /** A pixel box reaching past pixel 1 in any coordinate is cut out as
      given. */
  lemma PixelBoxUsedAsGiven(img: Image, b: Box)
    requires b.left > 1.0 || b.top > 1.0 || b.right > 1.0 || b.bottom > 1.0
    requires b.right != 0.0 || b.bottom != 0.0
    ensures CropoutFromImage(img, b.left, b.top, b.right, b.bottom) == CropBox(b)
  {
  }

  // ---------------------------------------------------------------------
  // Names and paths
  // ---------------------------------------------------------------------

  /** `_generate_thumbnail_name`: `{label}-{uuid suffix}-{sanitised url}`. */
  function ThumbnailName(url: string, labelText: string, uuid: string): (r: string)
    ensures r == labelText + "-" + UuidSuffix(uuid) + "-" + SanitiseUrl(url)
    ensures |r| <= |labelText| + 8 + |url|
    ensures forall i :: |r| - |SanitiseUrl(url)| <= i < |r| ==> r[i] !in CharsToReplace
  {
    var san := SanitiseUrl(url);
    var r := labelText + "-" + UuidSuffix(uuid) + "-" + san;
    assert r[|r| - |san|..] == san;
    r
  }

  /** `'/'.join([root, bucket, video_id, file_name])`. */
  function RootedPath(root: string, bucket: string, videoId: string, fileName: string): (r: string)
    ensures r == root + "/" + bucket + "/" + videoId + "/" + fileName
  {
    JoinFour(root, bucket, videoId, fileName, "/");
    Join([root, bucket, videoId, fileName], "/")
  }

  /** `'/'.join(['gs:/', bucket, video_id, file_name])`. */
  function GsFilePath(bucket: string, videoId: string, fileName: string): (r: string)
    ensures r == "gs://" + bucket + "/" + videoId + "/" + fileName
  {
    RootedPath("gs:/", bucket, videoId, fileName)
  }

  /** `'/'.join(['/gcs', bucket, video_id, file_name])`. */
  function FuseFilePath(bucket: string, videoId: string, fileName: string): (r: string)
    ensures r == "/gcs/" + bucket + "/" + videoId + "/" + fileName
  {
    RootedPath("/gcs", bucket, videoId, fileName)
  }

  /** `_save_image_to_gcs`'s `'/'.join([prefix, image_name])`. */
  function BlobPath(prefix: string, imageName: string): (r: string)
    ensures r == prefix + "/" + imageName
  {
    JoinTwo(prefix, imageName, "/");
    Join([prefix, imageName], "/")
  }

  /** The three paths of one cropout name the same object: the gs:// URI
      and the FUSE path are the bucket followed by the blob path. */
  lemma PathsAgree(bucket: string, videoId: string, fileName: string)
    ensures GsFilePath(bucket, videoId, fileName) == "gs://" + bucket + "/" + BlobPath(videoId, fileName)
    ensures FuseFilePath(bucket, videoId, fileName) == "/gcs/" + bucket + "/" + BlobPath(videoId, fileName)
  {
  }

  // ---------------------------------------------------------------------
  // Grouping by thumbnail URL
  // ---------------------------------------------------------------------

  /** The distinct thumbnail URLs of `xs` in order of first appearance. */
  function FirstSeen(xs: seq<CropObject>): seq<string>
  {
    if |xs| == 0 then []
    else
      var p := FirstSeen(xs[..|xs| - 1]);
      if xs[|xs| - 1].thumbnailUrl in p then p else p + [xs[|xs| - 1].thumbnailUrl]
  }

  /** The objects of `xs` on thumbnail `url`, in their original order. */
  function OfThumbnail(xs: seq<CropObject>, url: string): seq<CropObject>
  {
    if |xs| == 0 then []
    else
      OfThumbnail(xs[..|xs| - 1], url)
      + (if xs[|xs| - 1].thumbnailUrl == url then [xs[|xs| - 1]] else [])
  }

  predicate Distinct(keys: seq<string>)
  {
    forall i, j :: 0 <= i < j < |keys| ==> keys[i] != keys[j]
  }

  /** The first-seen list has no repetition and lists exactly the URLs that
      occur. */
  lemma {:induction false} FirstSeenShape(xs: seq<CropObject>)
    ensures Distinct(FirstSeen(xs))
    ensures forall u :: u in FirstSeen(xs) <==> exists j :: 0 <= j < |xs| && xs[j].thumbnailUrl == u
  {
    if |xs| > 0 {
      var init := xs[..|xs| - 1];
      FirstSeenShape(init);
      forall u
        ensures u in FirstSeen(xs) <==> exists j :: 0 <= j < |xs| && xs[j].thumbnailUrl == u
      {
        if u in FirstSeen(init) {
          var j :| 0 <= j < |init| && init[j].thumbnailUrl == u;
          assert xs[j].thumbnailUrl == u;
        }
        if exists j :: 0 <= j < |xs| && xs[j].thumbnailUrl == u {
          var j :| 0 <= j < |xs| && xs[j].thumbnailUrl == u;
          if j < |xs| - 1 {
            assert init[j].thumbnailUrl == u;
          }
        }
      }
    }
  }

  /** A URL not seen yet has no objects. */
  lemma {:induction false} UnseenHasNoObjects(xs: seq<CropObject>, url: string)
    requires url !in FirstSeen(xs)
    ensures OfThumbnail(xs, url) == []
  {
    if |xs| > 0 {
      var init := xs[..|xs| - 1];
      assert FirstSeen(init) <= FirstSeen(xs) by {
        assert forall u :: u in FirstSeen(init) ==> u in FirstSeen(xs);
      }
      UnseenHasNoObjects(init, url);
    }
  }

  /** Every object of a group carries the group's URL, and every object of
      `xs` with that URL is in the group, in its original order. */
  lemma {:induction false} OfThumbnailMembers(xs: seq<CropObject>, url: string)
    ensures forall o :: o in OfThumbnail(xs, url) ==> o.thumbnailUrl == url && o in xs
    ensures forall j :: 0 <= j < |xs| && xs[j].thumbnailUrl == url ==> xs[j] in OfThumbnail(xs, url)
  {
    if |xs| > 0 {
      var init := xs[..|xs| - 1];
      OfThumbnailMembers(init, url);
      forall j | 0 <= j < |xs| && xs[j].thumbnailUrl == url
        ensures xs[j] in OfThumbnail(xs, url)
      {
        if j < |xs| - 1 {
          assert init[j] == xs[j];
        }
      }
    }
  }

  /** The index of `u` in `keys`, if any. */
  function IndexOf(keys: seq<string>, u: string): (r: Option<nat>)
    ensures r.None? <==> u !in keys
    ensures r.Some? ==> r.value < |keys| && keys[r.value] == u
  {
    if |keys| == 0 then None
    else if keys[0] == u then Some(0)
    else match IndexOf(keys[1..], u)
      case None => None
      case Some(k) => Some(k + 1)
  }

  /** `run`'s transposition of the object list into a dictionary keyed by
      thumbnail URL: keys in order of first appearance, each key's list in
      the objects' order. */
  method GroupByThumbnail(objects: seq<CropObject>)
    returns (keys: seq<string>, groups: seq<seq<CropObject>>)
    ensures keys == FirstSeen(objects)
    ensures |groups| == |keys|
    ensures forall i :: 0 <= i < |keys| ==> groups[i] == OfThumbnail(objects, keys[i])
  {
    keys := [];
    groups := [];
    var n := 0;
    while n < |objects|
      invariant 0 <= n <= |objects|
      invariant keys == FirstSeen(objects[..n])
      invariant |groups| == |keys|
      invariant forall i :: 0 <= i < |keys| ==> groups[i] == OfThumbnail(objects[..n], keys[i])
      decreases |objects| - n
    {
      var item := objects[n];
      var prefix := objects[..n + 1];
      assert prefix[..n] == objects[..n];
      assert prefix[n] == item;
      FirstSeenShape(objects[..n]);
      var at := IndexOf(keys, item.thumbnailUrl);
      if at.None? {
        UnseenHasNoObjects(objects[..n], item.thumbnailUrl);
        keys := keys + [item.thumbnailUrl];
        groups := groups + [[item]];
      } else {
        groups := groups[at.value := groups[at.value] + [item]];
      }
      n := n + 1;
    }
    assert objects[..n] == objects;
  }

  /** The total number of objects over the groups of `keys`. */
  function GroupedCount(xs: seq<CropObject>, keys: seq<string>): nat
  {
    if |keys| == 0 then 0
    else GroupedCount(xs, keys[..|keys| - 1]) + |OfThumbnail(xs, keys[|keys| - 1])|
  }

  lemma {:induction false} GroupedCountAppendObject(xs: seq<CropObject>, x: CropObject, keys: seq<string>)
    requires Distinct(keys)
    ensures GroupedCount(xs + [x], keys) == GroupedCount(xs, keys) + (if x.thumbnailUrl in keys then 1 else 0)
  {
    if |keys| > 0 {
      var init := keys[..|keys| - 1];
      var last := keys[|keys| - 1];
      assert (xs + [x])[..|xs|] == xs;
      GroupedCountAppendObject(xs, x, init);
      assert x.thumbnailUrl in keys <==> x.thumbnailUrl in init || x.thumbnailUrl == last by {
        assert keys == init + [last];
      }
      if x.thumbnailUrl == last {
        assert last !in init;
      }
    }
  }

  /** Every object lands in exactly one group: the groups hold as many
      objects as were received. */
  lemma {:induction false} GroupsPartitionObjects(xs: seq<CropObject>)
    ensures GroupedCount(xs, FirstSeen(xs)) == |xs|
  {
    if |xs| > 0 {
      var init := xs[..|xs| - 1];
      var x := xs[|xs| - 1];
      assert xs == init + [x];
      GroupsPartitionObjects(init);
      FirstSeenShape(init);
      GroupedCountAppendObject(init, x, FirstSeen(init));
      if x.thumbnailUrl !in FirstSeen(init) {
        var keys := FirstSeen(xs);
        assert keys == FirstSeen(init) + [x.thumbnailUrl];
        assert keys[..|keys| - 1] == FirstSeen(init);
        UnseenHasNoObjects(init, x.thumbnailUrl);
        assert OfThumbnail(xs, x.thumbnailUrl) == [x];
      }
    }
  }

  // ---------------------------------------------------------------------
  // Cropouts of one thumbnail and of the whole message
  // ---------------------------------------------------------------------

  /** The cropout of one object of a fetched thumbnail. */
  function CropRecord(img: Image, o: CropObject, uuid: string, now: string, bucket: string): (c: Cropout)
    ensures c.crop == CropoutFromImage(img, o.topLeftX, o.topLeftY, o.bottomRightX, o.bottomRightY)
    ensures c.row.videoId == o.videoId && c.row.thumbnailUrl == o.thumbnailUrl
    ensures c.row.labelText == o.labelText && c.row.confidence == o.confidence
    ensures c.row.fileName == ThumbnailName(o.thumbnailUrl, o.labelText, uuid)
    ensures c.row.gsFilePath == "gs://" + bucket + "/" + o.videoId + "/" + c.row.fileName
    ensures c.row.fuseFilePath == "/gcs/" + bucket + "/" + o.videoId + "/" + c.row.fileName
    ensures c.row.datetimeUpdated == now
  {
    var name := ThumbnailName(o.thumbnailUrl, o.labelText, uuid);
    Cropout(
      CropoutFromImage(img, o.topLeftX, o.topLeftY, o.bottomRightX, o.bottomRightY),
      CropoutRow(o.videoId, o.thumbnailUrl, o.labelText, o.confidence, name,
                 GsFilePath(bucket, o.videoId, name), FuseFilePath(bucket, o.videoId, name), now))
  }

  /** `_generate_cropouts`: nothing for an empty group or a thumbnail that
      does not answer 200; otherwise one cropout per object, in order.
      `fetch` is the download (None unless the status is 200); `uuid(url, i)`
      and `clock(url, i)` are the random identifier and the formatted time
      drawn for the group's i-th object. */
  function CropoutsOfThumbnail(
    url: string, group: seq<CropObject>, fetch: string -> Option<Image>,
    uuid: (string, nat) -> string, clock: (string, nat) -> string, bucket: string): (r: seq<Cropout>)
    ensures |group| == 0 || fetch(url).None? ==> r == []
    ensures fetch(url).Some? ==> (|r| == |group|
      && forall i :: 0 <= i < |group| ==>
           r[i] == CropRecord(fetch(url).value, group[i], uuid(url, i), clock(url, i), bucket))
  {
    if |group| == 0 then []
    else match fetch(url)
      case None => []
      case Some(img) =>
        seq(|group|, i requires 0 <= i < |group| => CropRecord(img, group[i], uuid(url, i), clock(url, i), bucket))
  }

  /** The cropouts of the groups of `keys`, group after group. */
  function CropoutsOfGroups(
    objects: seq<CropObject>, keys: seq<string>, fetch: string -> Option<Image>,
    uuid: (string, nat) -> string, clock: (string, nat) -> string, bucket: string): seq<Cropout>
  {
    if |keys| == 0 then []
    else CropoutsOfThumbnail(keys[0], OfThumbnail(objects, keys[0]), fetch, uuid, clock, bucket)
         + CropoutsOfGroups(objects, keys[1..], fetch, uuid, clock, bucket)
  }

  /** Every cropout belongs to one of the message's objects: its row repeats
      that object's video, URL, label and confidence. */
  lemma {:induction false} CropoutsComeFromObjects(
    objects: seq<CropObject>, keys: seq<string>, fetch: string -> Option<Image>,
    uuid: (string, nat) -> string, clock: (string, nat) -> string, bucket: string)
    ensures forall c :: c in CropoutsOfGroups(objects, keys, fetch, uuid, clock, bucket) ==>
      exists o :: o in objects && c.row.videoId == o.videoId && c.row.thumbnailUrl == o.thumbnailUrl
        && c.row.labelText == o.labelText && c.row.confidence == o.confidence
  {
    if |keys| > 0 {
      CropoutsComeFromObjects(objects, keys[1..], fetch, uuid, clock, bucket);
      var g := OfThumbnail(objects, keys[0]);
      OfThumbnailMembers(objects, keys[0]);
      var here := CropoutsOfThumbnail(keys[0], g, fetch, uuid, clock, bucket);
      forall c | c in here
        ensures exists o :: (o in objects && c.row.videoId == o.videoId && c.row.thumbnailUrl == o.thumbnailUrl
          && c.row.labelText == o.labelText && c.row.confidence == o.confidence)
      {
        var i :| 0 <= i < |here| && here[i] == c;
        assert g[i] in g;
      }
    }
  }

  /** The row of each upload's cropout. */
  function Rows(cs: seq<Cropout>): (r: seq<CropoutRow>)
    ensures |r| == |cs| && forall i :: 0 <= i < |cs| ==> r[i] == cs[i].row
  {
    seq(|cs|, i requires 0 <= i < |cs| => cs[i].row)
  }

  /** `_save_image_to_gcs` for each cropout, in order, under
      `{video_id}/{file_name}`. */
  function Uploads(bucket: string, cs: seq<Cropout>): (r: seq<Effect>)
    ensures |r| == |cs|
    ensures forall i :: 0 <= i < |cs| ==>
      r[i] == Upload(bucket, cs[i].row.videoId + "/" + cs[i].row.fileName, cs[i].crop)
  {
    seq(|cs|, i requires 0 <= i < |cs| => Upload(bucket, BlobPath(cs[i].row.videoId, cs[i].row.fileName), cs[i].crop))
  }

  /** The cropouts of the groups from `i` on are those of group `i`
      followed by those of the groups after it. */
  lemma GroupsStep(
    objects: seq<CropObject>, keys: seq<string>, i: nat, fetch: string -> Option<Image>,
    uuid: (string, nat) -> string, clock: (string, nat) -> string, bucket: string)
    requires i < |keys|
    ensures CropoutsOfGroups(objects, keys[i..], fetch, uuid, clock, bucket)
         == CropoutsOfThumbnail(keys[i], OfThumbnail(objects, keys[i]), fetch, uuid, clock, bucket)
            + CropoutsOfGroups(objects, keys[i + 1..], fetch, uuid, clock, bucket)
  {
    assert keys[i..][1..] == keys[i + 1..];
  }

  lemma AppendAssoc<T>(a: seq<T>, b: seq<T>, c: seq<T>)
    ensures (a + b) + c == a + (b + c)
  {
  }

  /** `run`'s loop over the thumbnails: the cropouts of every group, group
      after group in order of first appearance. */
  method CollectCropouts(
    objects: seq<CropObject>, fetch: string -> Option<Image>,
    uuid: (string, nat) -> string, clock: (string, nat) -> string, bucket: string)
    returns (cropouts: seq<Cropout>)
    ensures cropouts == CropoutsOfGroups(objects, FirstSeen(objects), fetch, uuid, clock, bucket)
  {
    var keys, groups := GroupByThumbnail(objects);
    cropouts := [];
    var i := 0;
    while i < |keys|
      invariant 0 <= i <= |keys|
      invariant cropouts + CropoutsOfGroups(objects, keys[i..], fetch, uuid, clock, bucket)
             == CropoutsOfGroups(objects, keys, fetch, uuid, clock, bucket)
    {
      var next := CropoutsOfThumbnail(keys[i], groups[i], fetch, uuid, clock, bucket);
      GroupsStep(objects, keys, i, fetch, uuid, clock, bucket);
      AppendAssoc(cropouts, next, CropoutsOfGroups(objects, keys[i + 1..], fetch, uuid, clock, bucket));
      cropouts := cropouts + next;
      i := i + 1;
    }
    assert keys[i..] == [];
  }

  /** `run`: nothing for an empty object list or when nothing was cropped;
      otherwise every cropout is uploaded under `{video_id}/{file_name}`, in
      order, and only then are all rows inserted with one call. */
  method Run(
    objects: seq<CropObject>, fetch: string -> Option<Image>,
    uuid: (string, nat) -> string, clock: (string, nat) -> string, bucket: string)
    returns (effects: seq<Effect>)
    ensures |objects| == 0 ==> effects == []
    ensures var cs := CropoutsOfGroups(objects, FirstSeen(objects), fetch, uuid, clock, bucket);
      && (|cs| == 0 ==> effects == [])
      && (|cs| > 0 ==>
            |effects| == |cs| + 1
            && (forall i :: 0 <= i < |cs| ==>
                  effects[i] == Upload(bucket, cs[i].row.videoId + "/" + cs[i].row.fileName, cs[i].crop))
            && effects[|cs|] == InsertRows(TargetTable, Rows(cs)))
  {
    if |objects| == 0 {
      return [];
    }
    var cropouts := CollectCropouts(objects, fetch, uuid, clock, bucket);
    if |cropouts| == 0 {
      return [];
    }
    effects := Uploads(bucket, cropouts) + [InsertRows(TargetTable, Rows(cropouts))];
  }

  /** The single insert comes after every upload. */
  lemma InsertComesLast(
    objects: seq<CropObject>, fetch: string -> Option<Image>,
    uuid: (string, nat) -> string, clock: (string, nat) -> string, bucket: string, effects: seq<Effect>)
    requires var cs := CropoutsOfGroups(objects, FirstSeen(objects), fetch, uuid, clock, bucket);
      |cs| > 0 && |effects| == |cs| + 1
      && (forall i :: 0 <= i < |cs| ==>
            effects[i] == Upload(bucket, cs[i].row.videoId + "/" + cs[i].row.fileName, cs[i].crop))
      && effects[|cs|] == InsertRows(TargetTable, Rows(cs))
    ensures forall i :: 0 <= i < |effects| ==> (effects[i].InsertRows? <==> i == |effects| - 1)
  {
  }
}
