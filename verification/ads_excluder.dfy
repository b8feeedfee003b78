/** The Google Ads excluder (`google_ads_excluder`): adds the videos and
    channels marked for exclusion, and not yet on the account's exclusion
    list, to that list, and refreshes the CSV copy of the account's
    exclusion lists around the upload. */
module AdsExcluder {
  import opened Wrappers
  import opened Text
  import opened Requests
  import opened Exclusions
  import Dicts

  /** One row of the pending-exclusions query: an id and its kind. */
  datatype Pending = Pending(id: string, kind: string)

  /** The reference list of pending ids of one kind, in query order. */
  function IdsOfKind(rows: seq<Pending>, kind: string): seq<string>
  {
    if |rows| == 0 then []
    else
      var last := rows[|rows| - 1];
      IdsOfKind(rows[..|rows| - 1], kind) + (if last.kind == kind then [last.id] else [])
  }

  /** An id is listed under a kind exactly when a row of that kind names it. */
  lemma {:induction false} IdsOfKindMember(rows: seq<Pending>, kind: string, id: string)
    ensures id in IdsOfKind(rows, kind) <==> Pending(id, kind) in rows
  {
    if |rows| > 0 {
      var init := rows[..|rows| - 1];
      IdsOfKindMember(init, kind, id);
      assert rows == init + [rows[|rows| - 1]];
    }
  }

  /** `get_exclusions_to_upload`: one pass over the rows putting `video_id`
      rows in the videos and `channel_id` rows in the channels; rows of any
      other kind are dropped. */
  method Partition(rows: seq<Pending>) returns (videos: seq<string>, channels: seq<string>)
    ensures videos == IdsOfKind(rows, "video_id")
    ensures channels == IdsOfKind(rows, "channel_id")
  {
    videos, channels := [], [];
    var i := 0;
    while i < |rows|
      invariant 0 <= i <= |rows|
      invariant videos == IdsOfKind(rows[..i], "video_id")
      invariant channels == IdsOfKind(rows[..i], "channel_id")
    {
      assert rows[..i + 1][..i] == rows[..i];
      if rows[i].kind == "video_id" {
        videos := videos + [rows[i].id];
      } else if rows[i].kind == "channel_id" {
        channels := channels + [rows[i].id];
      }
      i := i + 1;
    }
    assert rows[..|rows|] == rows;
  }

  /** No row is listed twice and none of another kind is listed. */
  lemma {:induction false} PartitionCount(rows: seq<Pending>)
    ensures |IdsOfKind(rows, "video_id")| + |IdsOfKind(rows, "channel_id")| <= |rows|
    ensures (forall i :: 0 <= i < |rows| ==> rows[i].kind in {"video_id", "channel_id"}) ==>
      |IdsOfKind(rows, "video_id")| + |IdsOfKind(rows, "channel_id")| == |rows|
  {
    if |rows| > 0 {
      var init := rows[..|rows| - 1];
      PartitionCount(init);
      assert forall i :: 0 <= i < |init| ==> init[i] == rows[i];
    }
  }

  // ---------------------------------------------------------------------
  // The exclusion list and the operations
  // ---------------------------------------------------------------------

  /** `get_exclusion_list_name_and_ids`: the `(name, id)` pairs of the
      account's shared sets as a dictionary. */
  function SetIds(sets: seq<(string, int)>): (r: seq<(string, int)>)
    ensures Dicts.DistinctKeys(r)
  {
    Dicts.PutAllDistinct([], sets);
    Dicts.PutAll([], sets)
  }

  /** A name that appears twice maps to its last id. */
  lemma SetIdsLast(sets: seq<(string, int)>, name: string)
    ensures Dicts.Get(SetIds(sets), name) == Dicts.LastFor(sets, name)
  {
    Dicts.PutAllGet([], sets, name);
  }

  /** `f'customers/{customer_id}/sharedSets/{shared_set_id}'`. */
  function SharedSet(customerId: string, setId: int): string
  {
    "customers/" + customerId + "/sharedSets/" + ShowInt(setId)
  }

  /** The resource name is the account's prefix followed by text that
      reads back as the set id. */
  lemma SharedSetParts(customerId: string, setId: int)
    ensures var path := SharedSet(customerId, setId);
      var head := "customers/" + customerId + "/sharedSets/";
      && |path| > |head|
      && path[..|head|] == head
      && ParseInt(path[|head|..]) == Some(setId)
  {
    var head := "customers/" + customerId + "/sharedSets/";
    var tail := ShowInt(setId);
    assert SharedSet(customerId, setId) == head + tail;
    Split(head, tail);
    ParseShowRoundTrip(setId);
    if setId < 0 { ShowNatDigits(-setId); } else { ShowNatDigits(setId); }
  }

  lemma Split(a: string, b: string)
    ensures (a + b)[..|a|] == a && (a + b)[|a|..] == b
  {
  }

  /** A `SharedCriterionOperation` that creates one criterion on a set. */
  datatype Operation = ExcludeVideo(sharedSet: string, videoId: string)
                     | ExcludeChannel(sharedSet: string, channelId: string)

  /** `upload_exclusions`' operation list: the videos in order, then the
      channels in order, all on the same set. */
  function Operations(customerId: string, videos: seq<string>, channels: seq<string>, setId: int): (r: seq<Operation>)
    ensures |r| == |videos| + |channels|
    ensures forall i :: 0 <= i < |r| ==> r[i].sharedSet == SharedSet(customerId, setId)
    ensures forall i :: 0 <= i < |videos| ==> r[i] == ExcludeVideo(SharedSet(customerId, setId), videos[i])
    ensures forall j :: 0 <= j < |channels| ==> r[|videos| + j] == ExcludeChannel(SharedSet(customerId, setId), channels[j])
  {
    var path := SharedSet(customerId, setId);
    seq(|videos|, i requires 0 <= i < |videos| => ExcludeVideo(path, videos[i]))
    + seq(|channels|, j requires 0 <= j < |channels| => ExcludeChannel(path, channels[j]))
  }

  // ---------------------------------------------------------------------
  // main
  // ---------------------------------------------------------------------

  /** What one request did: the CSV written before the upload, the
      operations sent, and the CSV written after them. */
  datatype Outcome = Outcome(before: Option<Upload>, operations: seq<Operation>, after: Option<Upload>)

  /** Whether the pending query found anything to upload. */
  predicate HasPending(pending: seq<Pending>)
  {
    |IdsOfKind(pending, "video_id")| > 0 || |IdsOfKind(pending, "channel_id")| > 0
  }

  /** What the body of `main` promises for an account and a list name.
      `written` is the CSV write made before the upload is attempted: it is
      made whenever the account id is an integer, and it stays made when
      the missing list name raises afterwards. Nothing is sent and nothing
      rewritten unless something is pending; a list name the account
      lacks then raises `KeyError`. */
  predicate ExcludeResult(customerId: string, listName: string, criteria: seq<Criterion>, pending: seq<Pending>,
                          sets: seq<(string, int)>, criteriaAfter: seq<Criterion>, now: string, nowAfter: string,
                          r: Result<Outcome>, written: Option<Upload>)
  {
    && (r.Err? <==> (ParseInt(customerId).None?
          || (HasPending(pending) && Dicts.LastFor(sets, listName).None?)))
    && (ParseInt(customerId).None? ==> written.None?)
    && (ParseInt(customerId).Some? ==>
          written == WriteResults(FileName(customerId), ExclusionRows(customerId, criteria, now).value))
    && (r.Ok? ==> r.value.before == written)
    && (r.Ok? ==> (|r.value.operations| > 0 <==> HasPending(pending)))
    && (r.Ok? && HasPending(pending) ==>
          && r.value.operations == Operations(customerId, IdsOfKind(pending, "video_id"),
                                              IdsOfKind(pending, "channel_id"), Dicts.LastFor(sets, listName).value)
          && r.value.after == WriteResults(FileName(customerId), ExclusionRows(customerId, criteriaAfter, nowAfter).value))
    && (r.Ok? && !HasPending(pending) ==> r.value.after.None?)
  }

  /** The body of `main` for an account and a list name. `criteria` and
      `criteriaAfter` stand for the account's shared criteria read before
      and after the upload, `pending` for the rows of the
      pending-exclusions query, `sets` for the account's shared sets,
      `now` and `nowAfter` for the two clock readings. */
  method Exclude(customerId: string, listName: string, criteria: seq<Criterion>, pending: seq<Pending>,
                 sets: seq<(string, int)>, criteriaAfter: seq<Criterion>, now: string, nowAfter: string)
    returns (r: Result<Outcome>, written: Option<Upload>)
    ensures ExcludeResult(customerId, listName, criteria, pending, sets, criteriaAfter, now, nowAfter, r, written)
  {
    var fileName := FileName(customerId);
    var rows := ExclusionRows(customerId, criteria, now);
    if rows.Err? {
      return Err(rows.error), None;
    }
    written := WriteResults(fileName, rows.value);
    var videos, channels := Partition(pending);
    if |videos| > 0 || |channels| > 0 {
      SetIdsLast(sets, listName);
      var setId := Dicts.Get(SetIds(sets), listName);
      if setId.None? {
        return Err("KeyError"), written;
      }
      var operations := Operations(customerId, videos, channels, setId.value);
      var rowsAfter := ExclusionRows(customerId, criteriaAfter, nowAfter);
      r := Ok(Outcome(written, operations, WriteResults(fileName, rowsAfter.value)));
    } else {
      r := Ok(Outcome(written, [], None));
    }
  }

  /** A request field as text. A request that is not an object raises
      `TypeError`, a missing field `KeyError`. */
  function TextField(request: Json, key: string): (r: Result<string>)
    ensures r.Ok? <==> (request.JObject? && Dicts.Get(request.fields, key).Some?
      && Dicts.Get(request.fields, key).value.JString?)
    ensures r.Ok? ==> Dicts.Get(request.fields, key) == Some(JString(r.value))
  {
    if !request.JObject? then Err("TypeError")
    else
      var value := Dicts.Get(request.fields, key);
      if value.None? then Err("KeyError")
      else if value.value.JString? then Ok(value.value.s)
      else Err("Unmodelled")
  }

  /** `main(request)`: the account and list name from the request body,
      then the exclusion run; the answer is `OK` whenever nothing raised.
      The oracles are indexed by account and list name. `result` is what
      the exclusion run gave, or the field error, and `written` the CSV
      write made before the upload. */
  method HandleRequest(request: Json, criteria: string -> seq<Criterion>, pending: string -> seq<Pending>,
                       sets: string -> seq<(string, int)>, criteriaAfter: string -> seq<Criterion>,
                       now: string, nowAfter: string)
    returns (r: Result<string>, result: Result<Outcome>, written: Option<Upload>)
    ensures r.Ok? <==> result.Ok?
    ensures r.Ok? ==> r.value == "OK"
    ensures TextField(request, "customer_id").Err? || TextField(request, "shared_set_name").Err? ==>
      r.Err? && written.None?
    ensures TextField(request, "customer_id").Ok? && TextField(request, "shared_set_name").Ok? ==>
      var cid := TextField(request, "customer_id").value;
      var name := TextField(request, "shared_set_name").value;
      ExcludeResult(cid, name, criteria(cid), pending(name), sets(cid), criteriaAfter(cid), now, nowAfter,
                    result, written)
  {
    var cid := TextField(request, "customer_id");
    if cid.Err? {
      return Err(cid.error), Err(cid.error), None;
    }
    var name := TextField(request, "shared_set_name");
    if name.Err? {
      return Err(name.error), Err(name.error), None;
    }
    result, written := Exclude(cid.value, name.value, criteria(cid.value), pending(name.value),
                               sets(cid.value), criteriaAfter(cid.value), now, nowAfter);
    if result.Err? {
      return Err(result.error), result, written;
    }
    r := Ok("OK");
  }
}
