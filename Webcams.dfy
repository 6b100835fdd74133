/** server.webcams.*: the webcam list lives in the key-value store under
    namespace "moonraker", key "webcams". Posting with the uid of a listed
    camera updates that camera's settings in place; posting without one (or
    with an unknown one) appends a new camera under a fresh uid. Deleting
    drops every camera with that uid and answers the same whether or not
    one was found. */
module Webcams {
  import opened Wrappers
  import opened Json
  import Database

  type Cam = map<string, Value>

  /** What the handlers raise on: a stored entry that is not a list, or a
      camera that is not an object with a uid (`cam["uid"]`). */
  datatype WebcamError = NotAList | NoUid

  const Namespace := "moonraker"
  const Key := "webcams"

  /** `cam["uid"]`, or None where it raises. */
  function UidOf(cam: Value): Option<Value> {
    if cam.Obj? && "uid" in cam.fields then Some(cam.fields["uid"]) else None
  }

  predicate HasUid(cam: Value, uid: Value) {
    UidOf(cam) == Some(uid)
  }

  /** Every entry answers `cam["uid"]`. */
  predicate AllHaveUids(cams: seq<Value>) {
    forall i :: 0 <= i < |cams| ==> UidOf(cams[i]).Some?
  }

  /** `get_item(...) or []`: a falsy entry is the empty list; anything else
      that is not a list cannot be iterated and appended to. */
  function Cameras(stored: Value): (r: Result<seq<Value>, WebcamError>)
    ensures !Truthy(stored) ==> r == Ok([])
    ensures stored.List? ==> r == Ok(stored.items)
  {
    if !Truthy(stored) then Ok([])
    else if stored.List? then Ok(stored.items)
    else Err(NotAList)
  }

  /** server.webcams.list: the stored entry, or [] when it is falsy. */
  function ListAnswer(stored: Value): (r: Value)
    ensures r.Obj? && r.fields.Keys == {"webcams"}
    ensures Truthy(stored) ==> r.fields["webcams"] == stored
    ensures !Truthy(stored) ==> r.fields["webcams"] == List([])
  {
    Obj(map["webcams" := if Truthy(stored) then stored else List([])])
  }

  // ------------------------------------------------------------ first match

  /** Some entry from k on has no uid, and none before it has this one. */
  predicate MissingBeforeMatch(cams: seq<Value>, uid: Value, k: nat) {
    exists j :: k <= j < |cams| && UidOf(cams[j]).None? && NoMatchBetween(cams, uid, k, j)
  }

  predicate NoMatchBetween(cams: seq<Value>, uid: Value, k: nat, j: nat)
    requires j <= |cams|
  {
    forall i :: k <= i < j ==> UidOf(cams[i]).Some? && !HasUid(cams[i], uid)
  }

  /** The scan for the camera to update, from position k: the first entry
      with that uid, or an error at the first entry before it that has no
      uid. */
  function FirstMatchFrom(cams: seq<Value>, uid: Value, k: nat): (r: Result<Option<nat>, WebcamError>)
    requires k <= |cams|
    ensures r.Ok? && r.value.Some? ==>
      && k <= r.value.value < |cams| && HasUid(cams[r.value.value], uid)
      && (forall i :: k <= i < r.value.value ==> UidOf(cams[i]).Some? && !HasUid(cams[i], uid))
    ensures r == Ok(None) ==> forall i :: k <= i < |cams| ==> UidOf(cams[i]).Some? && !HasUid(cams[i], uid)
    ensures r.Err? ==> r == Err(NoUid) && MissingBeforeMatch(cams, uid, k)
    decreases |cams| - k
  {
    if k == |cams| then Ok(None)
    else
      match UidOf(cams[k])
      case None => Err(NoUid)
      case Some(u) => if u == uid then Ok(Some(k)) else FirstMatchFrom(cams, uid, k + 1)
  }

  function FirstMatch(cams: seq<Value>, uid: Value): Result<Option<nat>, WebcamError> {
    FirstMatchFrom(cams, uid, 0)
  }

  /** The handler's `for cam in webcams: if cam["uid"] == uid: break`. */
  method FindCamera(cams: seq<Value>, uid: Value) returns (r: Result<Option<nat>, WebcamError>)
    ensures r == FirstMatch(cams, uid)
  {
    var i := 0;
    while i < |cams|
      invariant 0 <= i <= |cams|
      invariant FirstMatchFrom(cams, uid, i) == FirstMatch(cams, uid)
    {
      var u := UidOf(cams[i]);
      if u.None? {
        return Err(NoUid);
      }
      if u.value == uid {
        return Ok(Some(i));
      }
      i := i + 1;
    }
    r := Ok(None);
  }

  // ----------------------------------------------------------------- upsert

  /** The settings an update may change, each with the value used when
      neither the request nor the camera has it. */
  const UpdateDefaults: map<string, Value> := map[
    "name" := Null, "location" := Null, "service" := Null, "target_fps" := Null,
    "stream_url" := Str(""), "snapshot_url" := Str(""),
    "flip_horizontal" := Null, "flip_vertical" := Null, "rotation" := Null,
    "enabled" := Bool(true)]

  /** `target_cam.update({...})`: each setting from the request, else as it
      was, else its default; every other field untouched. */
  function Updated(cam: Cam, params: map<string, Value>): Cam {
    cam + map k | k in UpdateDefaults :: GetOr(params, k, GetOr(cam, k, UpdateDefaults[k]))
  }

  /** A new camera: the request's settings over the defaults, the fresh uid,
      source "database", and always enabled. */
  function NewCamera(params: map<string, Value>, freshId: string): Cam {
    map[
      "name" := GetOr(params, "name", Str("New Webcam")),
      "location" := GetOr(params, "location", Str("printer")),
      "service" := GetOr(params, "service", Str("mjpegstreamer")),
      "target_fps" := GetOr(params, "target_fps", Num(15.0)),
      "stream_url" := GetOr(params, "stream_url", Str("")),
      "snapshot_url" := GetOr(params, "snapshot_url", Str("")),
      "flip_horizontal" := GetOr(params, "flip_horizontal", Bool(false)),
      "flip_vertical" := GetOr(params, "flip_vertical", Bool(false)),
      "rotation" := GetOr(params, "rotation", Num(0.0)),
      "source" := Str("database"),
      "uid" := Str(freshId),
      "enabled" := Bool(true)]
  }

  /** The list written back and the camera answered, or the error raised. */
  datatype Upsert = Upsert(cams: seq<Value>, item: Cam)

  function Upserted(stored: Value, params: map<string, Value>, freshId: string): Result<Upsert, WebcamError> {
    match Cameras(stored)
    case Err(e) => Err(e)
    case Ok(cams) =>
      var uid := Get(params, "uid");
      var found := if Truthy(uid) then FirstMatch(cams, uid) else Ok(None);
      match found
      case Err(e) => Err(e)
      case Ok(None) =>
        var cam := NewCamera(params, freshId);
        Ok(Upsert(cams + [Obj(cam)], cam))
      case Ok(Some(j)) =>
        var cam := Updated(cams[j].fields, params);
        Ok(Upsert(cams[j := Obj(cam)], cam))
  }

  function ItemAnswer(cam: Cam): Value {
    Obj(map["item" := Obj(cam)])
  }

  /** server.webcams.post_item: writes and saves the new list and answers
      the camera; on an error nothing is written or saved. */
  method PostItem(db: Database.DatabaseManager, params: map<string, Value>, freshId: string)
    returns (r: Result<Value, WebcamError>)
    requires db.Valid()
    modifies db
    ensures db.Valid()
    ensures match Upserted(Database.Lookup(old(db.db), Namespace, Some(Key)), params, freshId)
      case Err(e) => r == Err(e) && db.db == old(db.db) && db.order == old(db.order) && db.saved == old(db.saved)
      case Ok(u) =>
        && r == Ok(ItemAnswer(u.item))
        && db.db == Database.Posted(old(db.db), Namespace, Some(Key), List(u.cams))
        && db.order == old(db.order) + (if Namespace in old(db.db) then [] else [Namespace])
        && db.saved == old(db.saved) + [Database.Snapshot(db.db, db.order)]
  {
    var stored := db.GetItem(Namespace, Some(Key));
    var cams;
    if !Truthy(stored) {
      cams := [];
    } else if stored.List? {
      cams := stored.items;
    } else {
      return Err(NotAList);
    }
    var uid := Get(params, "uid");
    var found: Result<Option<nat>, WebcamError> := Ok(None);
    if Truthy(uid) {
      found := FindCamera(cams, uid);
    }
    if found.Err? {
      return Err(found.error);
    }
    var cam;
    if found.value.Some? {
      var j := found.value.value;
      cam := Updated(cams[j].fields, params);
      cams := cams[j := Obj(cam)];
    } else {
      cam := NewCamera(params, freshId);
      cams := cams + [Obj(cam)];
    }
    var _ := db.PostItem(Namespace, Some(Key), List(cams));
    r := Ok(ItemAnswer(cam));
  }

  // ----------------------------------------------------------------- delete

  /** `[cam for cam in webcams if cam["uid"] != uid]`: every entry is read,
      so one without a uid raises. */
  function Remaining(cams: seq<Value>, uid: Value): (r: Result<seq<Value>, WebcamError>)
    ensures r.Ok? <==> AllHaveUids(cams)
  {
    if AllHaveUids(cams) then Ok(Kept(cams, uid)) else Err(NoUid)
  }

  /** The entries without that uid, in order. */
  function Kept(cams: seq<Value>, uid: Value): (r: seq<Value>)
    ensures |r| <= |cams|
    ensures forall c :: c in r <==> c in cams && !HasUid(c, uid)
    decreases |cams|
  {
    if |cams| == 0 then []
    else
      var init := cams[..|cams| - 1];
      var last := cams[|cams| - 1];
      assert cams == init + [last];
      Kept(init, uid) + (if HasUid(last, uid) then [] else [last])
  }

  /** The answer to a delete names the uid, found or not. */
  function DeleteAnswer(uid: Value): Value {
    Obj(map["item" := Obj(map["uid" := uid])])
  }

  /** server.webcams.delete_item: the store is written and saved only when
      something was removed. */
  method DeleteItem(db: Database.DatabaseManager, params: map<string, Value>)
    returns (r: Result<Value, WebcamError>)
    requires db.Valid()
    modifies db
    ensures db.Valid()
    ensures var uid := Get(params, "uid");
      match Cameras(Database.Lookup(old(db.db), Namespace, Some(Key)))
      case Err(e) => r == Err(e) && db.db == old(db.db) && db.order == old(db.order) && db.saved == old(db.saved)
      case Ok(cams) =>
        match Remaining(cams, uid)
        case Err(e) => r == Err(e) && db.db == old(db.db) && db.order == old(db.order) && db.saved == old(db.saved)
        case Ok(kept) =>
          && r == Ok(DeleteAnswer(uid))
          && db.db == (if |kept| < |cams| then Database.Posted(old(db.db), Namespace, Some(Key), List(kept)) else old(db.db))
          && db.order == old(db.order)
          && db.saved == if |kept| < |cams| then old(db.saved) + [Database.Snapshot(db.db, db.order)] else old(db.saved)
  {
    var uid := Get(params, "uid");
    var stored := db.GetItem(Namespace, Some(Key));
    var cams;
    if !Truthy(stored) {
      cams := [];
    } else if stored.List? {
      cams := stored.items;
    } else {
      return Err(NotAList);
    }
    var kept := Remaining(cams, uid);
    if kept.Err? {
      return Err(kept.error);
    }
    if |kept.value| < |cams| {
      var _ := db.PostItem(Namespace, Some(Key), List(kept.value));
    }
    r := Ok(DeleteAnswer(uid));
  }

  // ----------------------------------------------------------------- lemmas

  /** An update keeps the camera's uid and source and any field it does
      not name; each named setting comes from the request first. */
  lemma UpdateKeepsIdentity(cam: Cam, params: map<string, Value>)
    ensures Updated(cam, params).Keys == cam.Keys + UpdateDefaults.Keys
    ensures forall k :: k in cam && k !in UpdateDefaults ==> Updated(cam, params)[k] == cam[k]
    ensures "uid" in cam ==> "uid" in Updated(cam, params) && Updated(cam, params)["uid"] == cam["uid"]
    ensures forall k :: k in UpdateDefaults && k in params ==> Updated(cam, params)[k] == params[k]
    ensures forall k :: k in UpdateDefaults && k !in params && k in cam ==> Updated(cam, params)[k] == cam[k]
  {
    assert "uid" !in UpdateDefaults;
  }

  /** An update that repeats the camera's own settings changes nothing. */
  lemma UpdateIdempotent(cam: Cam, params: map<string, Value>)
    ensures Updated(Updated(cam, params), params) == Updated(cam, params)
  {
  }

  /** A new camera has the fresh uid and source "database", and is enabled
      even when the request says otherwise. */
  lemma NewCameraShape(params: map<string, Value>, freshId: string)
    ensures HasUid(Obj(NewCamera(params, freshId)), Str(freshId))
    ensures NewCamera(params, freshId)["source"] == Str("database")
    ensures NewCamera(params, freshId)["enabled"] == Bool(true)
  {
  }

  /** With the uid of a listed camera, the list keeps its length and order
      and only that camera changes, keeping its uid. */
  lemma KnownUidUpdatesInPlace(stored: Value, params: map<string, Value>, freshId: string, j: nat)
    requires stored.List? && j < |stored.items|
    requires Truthy(Get(params, "uid"))
    requires FirstMatch(stored.items, Get(params, "uid")) == Ok(Some(j))
    ensures var u := Upserted(stored, params, freshId);
      && u.Ok? && |u.value.cams| == |stored.items|
      && (forall i :: 0 <= i < |stored.items| && i != j ==> u.value.cams[i] == stored.items[i])
      && HasUid(u.value.cams[j], Get(params, "uid"))
      && u.value.cams[j] == Obj(u.value.item)
  {
    var cam := stored.items[j].fields;
    UpdateKeepsIdentity(cam, params);
  }

  /** With no uid, or one no camera has, the new camera is appended under
      the fresh uid and the rest of the list is untouched. */
  lemma UnknownUidAppends(stored: Value, params: map<string, Value>, freshId: string)
    requires Cameras(stored).Ok?
    requires !Truthy(Get(params, "uid")) || FirstMatch(Cameras(stored).value, Get(params, "uid")) == Ok(None)
    ensures var u := Upserted(stored, params, freshId);
      && u.Ok?
      && u.value.cams == Cameras(stored).value + [Obj(NewCamera(params, freshId))]
      && HasUid(u.value.cams[|u.value.cams| - 1], Str(freshId))
  {
  }

  /** Upserting keeps every camera answering `cam["uid"]`. */
  lemma UpsertKeepsUids(stored: Value, params: map<string, Value>, freshId: string)
    requires Cameras(stored).Ok? && AllHaveUids(Cameras(stored).value)
    requires Upserted(stored, params, freshId).Ok?
    ensures AllHaveUids(Upserted(stored, params, freshId).value.cams)
  {
    var cams := Cameras(stored).value;
    var uid := Get(params, "uid");
    if Truthy(uid) && FirstMatch(cams, uid).value.Some? {
      var j := FirstMatch(cams, uid).value.value;
      UpdateKeepsIdentity(cams[j].fields, params);
    }
  }

  /** A delete shrinks the list exactly when some camera has that uid. */
  lemma {:induction false} ShrinksIffFound(cams: seq<Value>, uid: Value)
    ensures |Kept(cams, uid)| < |cams| <==> exists i :: 0 <= i < |cams| && HasUid(cams[i], uid)
    ensures |Kept(cams, uid)| <= |cams|
    decreases |cams|
  {
    if |cams| > 0 {
      var init, last := cams[..|cams| - 1], cams[|cams| - 1];
      ShrinksIffFound(init, uid);
      assert |Kept(cams, uid)| == |Kept(init, uid)| + (if HasUid(last, uid) then 0 else 1);
      if HasUid(last, uid) {
        assert HasUid(cams[|cams| - 1], uid);
      } else {
        if i :| 0 <= i < |init| && HasUid(init[i], uid) {
          assert cams[i] == init[i];
        }
        if i :| 0 <= i < |cams| && HasUid(cams[i], uid) {
          assert i < |init| && init[i] == cams[i];
        }
      }
    }
  }

  /** A list where no camera has the uid survives a delete unchanged. */
  lemma {:induction false} KeptWithoutMatch(cams: seq<Value>, uid: Value)
    requires forall i :: 0 <= i < |cams| ==> !HasUid(cams[i], uid)
    ensures Kept(cams, uid) == cams
    decreases |cams|
  {
    if |cams| > 0 {
      var init := cams[..|cams| - 1];
      forall i | 0 <= i < |init| ensures !HasUid(init[i], uid) {
        assert init[i] == cams[i];
      }
      KeptWithoutMatch(init, uid);
      assert !HasUid(cams[|cams| - 1], uid);
      assert init + [cams[|cams| - 1]] == cams;
    }
  }

  /** A second delete of the same uid removes nothing. */
  lemma DeleteIdempotent(cams: seq<Value>, uid: Value)
    ensures Kept(Kept(cams, uid), uid) == Kept(cams, uid)
  {
    var k := Kept(cams, uid);
    assert forall i :: 0 <= i < |k| ==> k[i] in k;
    KeptWithoutMatch(k, uid);
  }
}
