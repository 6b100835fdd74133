/** handle_jsonrpc: the websocket's JSON-RPC dispatcher. Every request is
    answered with its own id; the method name picks one branch, and a name
    the shim does not know is answered with an empty result. The branches
    that carry logic are modelled against the components they drive; the
    branches that answer constants or mock data are marked, not spelled out. */
module Gateway {
  import opened Wrappers
  import opened Json
  import StateStore
  import DeviceLink
  import FanControl
  import Database
  import NestedKeys
  import FileBridge
  import Listing
  import GcodeScript
  import Webcams

  /** A decoded request object: `name` is its "method" member, `params` the
      value under "params" (an empty object when the member is absent). */
  datatype Request = Request(id: Value, name: Value, params: Value)

  /** The request a decoded websocket message stands for; None when it is
      not an object, where `request.get("id")` raises. */
  function RequestOf(v: Value): (r: Option<Request>)
    ensures r.Some? <==> v.Obj?
    ensures r.Some? ==> r.value.params == (if "params" in v.fields then v.fields["params"] else Obj(map[]))
    ensures r.Some? ==> r.value.id == (if "id" in v.fields then v.fields["id"] else Null)
    ensures r.Some? ==> r.value.name == (if "method" in v.fields then v.fields["method"] else Null)
  {
    if v.Obj? then Some(Request(GetOr(v.fields, "id", Null), GetOr(v.fields, "method", Null), GetOr(v.fields, "params", Obj(map[]))))
    else None
  }

  /** Why a branch answered with an error object (code and message). */
  datatype Reason = FanRejected(fan: FanControl.FanError) | ScriptRejected(script: GcodeScript.ScriptError)

  /** What goes under "result" or "error". */
  datatype Body =
    | Answer(result: Value)
    | Failure(code: int, reason: Reason)
      /** A constant or mock result. */
    | Fixed(name: string)
      /** The state's object names. */
    | Objects(names: set<string>)
    | TemperatureStore(history: map<string, StateStore.SensorHistory>)
    | FileList(root: Value, listing: Listing.FileList)
    | Directory(directory: Listing.Directory)
      /** Answered by the job history store. */
    | Delegated(name: string)
      /** The handler raises instead of answering. */
    | Raised
      /** Parameters of a type this model does not follow. */
    | Unmodelled

  datatype Response = Response(id: Value, body: Body)

  /** The inputs the handler takes from outside: the connection, whether a
      printer serial is configured, the FTPS server, the root listing the
      file cache holds (None when missing or stale), the clock and a fresh
      uuid. */
  datatype Env = Env(connectionId: int, hasSerial: bool, srv: FileBridge.Server,
                     cached: Option<seq<FileBridge.Entry>>, now: real, freshId: string)

  // ------------------------------------------------------------ routing

  datatype Route =
    | ServerInfo | ObjectsList | ObjectsQuery | ObjectsSubscribe
    | DatabaseGet | DatabasePost | DatabaseDelete | DatabaseList
    | TemperatureHistory | FilesMetadata | PrinterInfo | Identify | GcodeStore
    | FanSetSpeed | WebcamsList | WebcamsPost | WebcamsDelete | WebcamsTest
    | ServerConfig | SystemInfo | ProcStats | Script
    | FilesRoots | FilesList | GetDirectory | HistoryList | HistoryTotals | JobQueue
    | Unknown

  const Routes: map<string, Route> := map[
    "server.info" := ServerInfo,
    "printer.objects.list" := ObjectsList,
    "printer.objects.query" := ObjectsQuery,
    "printer.objects.subscribe" := ObjectsSubscribe,
    "server.database.get_item" := DatabaseGet,
    "server.database.post_item" := DatabasePost,
    "server.database.delete_item" := DatabaseDelete,
    "server.temperature_store" := TemperatureHistory,
    "server.files.metadata" := FilesMetadata,
    "printer.info" := PrinterInfo,
    "server.connection.identify" := Identify,
    "server.gcode_store" := GcodeStore,
    "printer.fan.set_speed" := FanSetSpeed,
    "server.webcams.list" := WebcamsList,
    "server.webcams.post_item" := WebcamsPost,
    "server.webcams.delete_item" := WebcamsDelete,
    "server.webcams.test" := WebcamsTest,
    "server.config" := ServerConfig,
    "machine.system_info" := SystemInfo,
    "machine.proc_stats" := ProcStats,
    "server.database.list" := DatabaseList,
    "printer.gcode.script" := Script,
    "server.files.roots" := FilesRoots,
    "server.files.list" := FilesList,
    "server.files.get_directory" := GetDirectory,
    "server.history.list" := HistoryList,
    "server.history.totals" := HistoryTotals,
    "server.job_queue.status" := JobQueue]

  /** The branch a method name selects; anything but a known name (None, a
      number, an unknown string) falls through to the fallback. */
  function RouteOf(m: Value): (r: Route)
    ensures r != Unknown <==> m.Str? && m.s in Routes
    ensures r != Unknown ==> Routes[m.s] == r
  {
    if m.Str? && m.s in Routes then Routes[m.s] else Unknown
  }

  /** What a branch touches: nothing (it only reads), the database, the
      printer (client and state), or the file bridge. get_item is a database
      branch: the mainsail root is handed out live, and nesting it writes
      through the stored objects. */
  datatype Reach = Reads | Stores | Drives | Lists

  function ReachOf(r: Route): Reach {
    match r
    case DatabaseGet => Stores
    case DatabasePost => Stores
    case DatabaseDelete => Stores
    case WebcamsPost => Stores
    case WebcamsDelete => Stores
    case FanSetSpeed => Drives
    case Script => Drives
    case FilesList => Lists
    case GetDirectory => Lists
    case _ => Reads
  }

  /** The branches that only read: they change neither the printer state,
      the database, the client nor the file bridge. */
  predicate ReadOnly(r: Route) {
    ReachOf(r) == Reads
  }

  /** The branches answered with a constant or mock result. */
  function FixedName(r: Route): Option<string> {
    match r
    case ServerInfo => Some("server.info")
    case FilesMetadata => Some("server.files.metadata")
    case PrinterInfo => Some("printer.info")
    case GcodeStore => Some("server.gcode_store")
    case WebcamsTest => Some("server.webcams.test")
    case ServerConfig => Some("server.config")
    case SystemInfo => Some("machine.system_info")
    case ProcStats => Some("machine.proc_stats")
    case FilesRoots => Some("server.files.roots")
    case JobQueue => Some("server.job_queue.status")
    case _ => None
  }

  /** The constant answers are all read-only branches. */
  lemma FixedOnlyReads(r: Route)
    ensures FixedName(r).Some? ==> ReadOnly(r)
  {
  }

  // ------------------------------------------------------ objects.query

  /** The requested objects the state has, each as stored. */
  function Requested(st: StateStore.State, names: set<string>): (r: StateStore.State)
    ensures r.Keys == names * st.Keys
    ensures forall k | k in r :: r[k] == st[k]
  {
    map k | k in names && k in st :: st[k]
  }

  /** The status loop of objects.query and objects.subscribe: every requested
      name is looked up, and only the ones present are copied. */
  method QueryStatus(st: StateStore.State, names: set<string>) returns (status: StateStore.State)
    ensures status == Requested(st, names)
  {
    status := map[];
    var rest := names;
    while rest != {}
      invariant rest <= names
      invariant status == Requested(st, names - rest)
      decreases rest
    {
      var k :| k in rest;
      if k in st {
        status := status[k := st[k]];
      }
      rest := rest - {k};
    }
  }

  function StateJson(st: StateStore.State): Value {
    Obj(map k | k in st :: Obj(st[k]))
  }

  /** {"status": ..., "eventtime": now} for the requested objects; an
      "objects" member that is not a mapping makes the handler raise. */
  function QueryBody(st: StateStore.State, params: map<string, Value>, now: real): Body {
    match GetOr(params, "objects", Obj(map[]))
    case Obj(f) => Answer(Obj(map["status" := StateJson(Requested(st, f.Keys)), "eventtime" := Num(now)]))
    case _ => Raised
  }

  /** Asking again for what an answer already holds gives the same answer. */
  lemma RequeryStable(st: StateStore.State, names: set<string>)
    ensures Requested(st, Requested(st, names).Keys) == Requested(st, names)
  {
  }

  /** The answer is the whole state exactly when every object was asked for. */
  lemma {:induction false} QueryAllIffCovered(st: StateStore.State, names: set<string>)
    ensures Requested(st, names) == st <==> st.Keys <= names
  {
    if Requested(st, names) == st {
      assert Requested(st, names).Keys == st.Keys;
    }
  }

  // ------------------------------------------------------------ database

  /** A namespace or key parameter: None (Null) or a string; anything else
      is not followed. */
  function KeyParam(v: Value): Option<Option<string>> {
    match v
    case Null => Some(None)
    case Str(s) => Some(Some(s))
    case _ => None
  }

  function DbAnswer(ns: string, key: Value, v: Value): Value {
    Obj(map["namespace" := Str(ns), "key" := key, "value" := v])
  }

  /** k is the key of one of the items. */
  predicate Listed(items: seq<(string, Value)>, k: string) {
    exists i :: 0 <= i < |items| && items[i].0 == k
  }

  /** items walks m: each key once, with its value. */
  predicate Enumerates(items: seq<(string, Value)>, m: map<string, Value>) {
    && (forall i | 0 <= i < |items| :: items[i].0 in m && m[items[i].0] == items[i].1)
    && (forall k | k in m :: Listed(items, k))
    && (forall i, j | 0 <= i < j < |items| :: items[i].0 != items[j].0)
  }

  /** `flat_dict.items()`: the namespace's items one after another. */
  method Items(m: map<string, Value>) returns (items: seq<(string, Value)>)
    ensures Enumerates(items, m)
  {
    items := [];
    var rest := m.Keys;
    while rest != {}
      invariant rest <= m.Keys
      invariant forall i | 0 <= i < |items| :: items[i].0 in m && items[i].0 !in rest && m[items[i].0] == items[i].1
      invariant forall k | k in m && k !in rest :: Listed(items, k)
      invariant forall i, j | 0 <= i < j < |items| :: items[i].0 != items[j].0
      decreases rest
    {
      var k :| k in rest;
      assert items + [(k, m[k])] == items + [(k, m[k])];
      forall k' | k' in m && k' !in rest - {k}
        ensures Listed(items + [(k, m[k])], k')
      {
        if k' == k {
          assert (items + [(k, m[k])])[|items|].0 == k;
        } else {
          var i :| 0 <= i < |items| && items[i].0 == k';
          assert (items + [(k, m[k])])[i].0 == k';
        }
      }
      items := items + [(k, m[k])];
      rest := rest - {k};
    }
  }

  /** A namespace none of whose dotted keys extends another always nests,
      whatever order its items are walked in. */
  lemma NamespaceNests(items: seq<(string, Value)>, m: map<string, Value>)
    requires Enumerates(items, m)
    requires forall a, b | a in m && b in m && a != b :: !(NestedKeys.Parts(a) <= NestedKeys.Parts(b))
    ensures NestedKeys.Flattened(items).Ok?
  {
    forall i, j | 0 <= i < |items| && 0 <= j < |items| && i != j
      ensures !(NestedKeys.Parts(items[i].0) <= NestedKeys.Parts(items[j].0))
    {
      if i < j {
        assert items[i].0 != items[j].0;
      } else {
        assert items[j].0 != items[i].0;
      }
    }
    assert NestedKeys.PrefixFree(items);
    NestedKeys.PrefixFreeReadsBack(items);
  }

  /** The mainsail root is read as nested objects: the conversion of its
      items, walked in some order, with `written` the namespace's entries as
      that walk leaves them; a failed conversion raises. */
  ghost predicate NestedRead(ns: string, key: Value, m: map<string, Value>, body: Body, written: map<string, Value>) {
    exists items ::
      && Enumerates(items, m)
      && body == NestedBody(ns, key, NestedKeys.Flattened(items))
      && written == NestedKeys.Walked(items, m).stored
  }

  function NestedBody(ns: string, key: Value, r: Result<map<string, Value>, NestedKeys.FlattenError>): Body {
    match r
    case Ok(nested) => Answer(DbAnswer(ns, key, Obj(nested)))
    case Err(_) => Raised
  }

  /** Whether get_item converts the read value to nested objects. */
  predicate Nests(db: Database.Db, ns: string, key: Value) {
    ns == "mainsail" && key == Null && Database.Lookup(db, ns, None).Obj?
  }

  /** What server.database.get_item answers for `params` against the store
      `before`, and the store `after` it: the maintenance namespace always
      reads as {}; the mainsail root is nested, and the conversion writes
      through the stored objects it walks into; everything else is read as
      stored and changes nothing. */
  ghost predicate ReadOutcome(params: map<string, Value>, before: Database.Db, body: Body, after: Database.Db) {
    var nsV := Get(params, "namespace");
    var keyV := Get(params, "key");
    && (!nsV.Str? || KeyParam(keyV).None? ==> body == Unmodelled && after == before)
    && (nsV.Str? && KeyParam(keyV).Some? ==>
          var key := KeyParam(keyV).value;
          && (nsV.s == "maintenance" ==> body == Answer(DbAnswer(nsV.s, keyV, Obj(map[]))) && after == before)
          && (nsV.s != "maintenance" && !Nests(before, nsV.s, keyV) ==>
                body == Answer(DbAnswer(nsV.s, keyV, Database.Lookup(before, nsV.s, key))) && after == before)
          && (Nests(before, nsV.s, keyV) ==>
                && "mainsail" in after && after == before["mainsail" := after["mainsail"]]
                && NestedRead(nsV.s, keyV, before["mainsail"], body, after["mainsail"])))
  }

  /** server.database.get_item. */
  method GetItem(params: map<string, Value>, db: Database.DatabaseManager) returns (body: Body)
    requires db.Valid()
    modifies db
    ensures db.Valid() && db.order == old(db.order) && db.saved == old(db.saved)
    ensures ReadOutcome(params, old(db.db), body, db.db)
  {
    var nsV := Get(params, "namespace");
    var keyV := Get(params, "key");
    var key := KeyParam(keyV);
    if !nsV.Str? || key.None? {
      return Unmodelled;
    }
    var ns := nsV.s;
    if ns == "maintenance" {
      return Answer(DbAnswer(ns, keyV, Obj(map[])));
    }
    var v := db.GetItem(ns, key.value);
    if ns == "mainsail" && keyV == Null && v.Obj? {
      var items := Items(v.fields);
      var nested, written := NestedKeys.FlattenToNested(items, v.fields);
      db.WriteThrough(ns, written);
      body := NestedBody(ns, keyV, nested);
      return;
    }
    body := Answer(DbAnswer(ns, keyV, v));
  }

  /** A mainsail root none of whose dotted keys extends another is read
      without changing the store, whatever order its items are walked in. */
  lemma PrefixFreeReadKeepsStore(params: map<string, Value>, before: Database.Db, body: Body, after: Database.Db)
    requires ReadOutcome(params, before, body, after)
    requires "mainsail" in before
    requires forall a, b | a in before["mainsail"] && b in before["mainsail"] && a != b ::
      !(NestedKeys.Parts(a) <= NestedKeys.Parts(b))
    ensures after == before
  {
    var nsV := Get(params, "namespace");
    var keyV := Get(params, "key");
    if nsV.Str? && KeyParam(keyV).Some? && Nests(before, nsV.s, keyV) {
      var m := before["mainsail"];
      var items: seq<(string, Value)> :| Enumerates(items, m) && body == NestedBody(nsV.s, keyV, NestedKeys.Flattened(items))
        && after["mainsail"] == NestedKeys.Walked(items, m).stored;
      forall i, j | 0 <= i < |items| && 0 <= j < |items| && i != j
        ensures !(NestedKeys.Parts(items[i].0) <= NestedKeys.Parts(items[j].0))
      {
        if i < j {
          assert items[i].0 != items[j].0;
        } else {
          assert items[j].0 != items[i].0;
        }
      }
      NestedKeys.PrefixFreeKeepsStore(items, m);
    }
  }

  /** server.database.post_item: a maintenance write is echoed and not
      stored; any other write goes to the database and is saved. */
  method PostItem(params: map<string, Value>, db: Database.DatabaseManager) returns (body: Body)
    requires db.Valid()
    modifies db
    ensures db.Valid()
    ensures var nsV := Get(params, "namespace"); var keyV := Get(params, "key"); var value := Get(params, "value");
      && (!nsV.Str? || KeyParam(keyV).None? ==>
            body == Unmodelled && db.db == old(db.db) && db.order == old(db.order) && db.saved == old(db.saved))
      && (nsV.Str? && KeyParam(keyV).Some? && nsV.s == "maintenance" ==>
            && body == Answer(DbAnswer(nsV.s, keyV, value))
            && db.db == old(db.db) && db.order == old(db.order) && db.saved == old(db.saved))
      && (nsV.Str? && KeyParam(keyV).Some? && nsV.s != "maintenance" ==>
            && db.db == Database.Posted(old(db.db), nsV.s, KeyParam(keyV).value, value)
            && db.order == old(db.order) + (if nsV.s in old(db.db) then [] else [nsV.s])
            && db.saved == old(db.saved) + [Database.Snapshot(db.db, db.order)]
            && body == Answer(DbAnswer(nsV.s, keyV, Database.PostAnswer(old(db.db), nsV.s, KeyParam(keyV).value, value))))
  {
    var nsV := Get(params, "namespace");
    var keyV := Get(params, "key");
    var value := Get(params, "value");
    var key := KeyParam(keyV);
    if !nsV.Str? || key.None? {
      return Unmodelled;
    }
    if nsV.s == "maintenance" {
      return Answer(DbAnswer(nsV.s, keyV, value));
    }
    var stored := db.PostItem(nsV.s, key.value, value);
    body := Answer(DbAnswer(nsV.s, keyV, stored));
  }

  /** server.database.delete_item: the remaining namespace, or None when
      there was nothing to delete. */
  method DeleteItem(params: map<string, Value>, db: Database.DatabaseManager) returns (body: Body)
    requires db.Valid()
    modifies db
    ensures db.Valid()
    ensures var nsV := Get(params, "namespace"); var keyV := Get(params, "key");
      && (!nsV.Str? || KeyParam(keyV).None? ==>
            body == Unmodelled && db.db == old(db.db) && db.order == old(db.order) && db.saved == old(db.saved))
      && (nsV.Str? && KeyParam(keyV).Some? ==>
            var key := KeyParam(keyV).value;
            && db.db == Database.Deleted(old(db.db), nsV.s, key)
            && db.order == old(db.order)
            && db.saved == (if Database.Deletable(old(db.db), nsV.s, key)
                            then old(db.saved) + [Database.Snapshot(db.db, db.order)] else old(db.saved))
            && body == Answer(DbAnswer(nsV.s, keyV,
                 if Database.Deletable(old(db.db), nsV.s, key) then Obj(db.db[nsV.s]) else Null)))
  {
    var nsV := Get(params, "namespace");
    var keyV := Get(params, "key");
    var key := KeyParam(keyV);
    if !nsV.Str? || key.None? {
      return Unmodelled;
    }
    var remaining := db.DeleteItem(nsV.s, key.value);
    body := Answer(DbAnswer(nsV.s, keyV, remaining));
  }

  /** The namespace names as JSON strings, in order. */
  function Strs(names: seq<string>): (r: seq<Value>)
    ensures |r| == |names|
    ensures forall i | 0 <= i < |names| :: r[i] == Str(names[i])
  {
    seq(|names|, i requires 0 <= i < |names| => Str(names[i]))
  }

  /** server.database.list: every namespace once, in the order they were
      added, and no backups. */
  method ListNamespaces(db: Database.DatabaseManager) returns (body: Body)
    requires db.Valid()
    ensures body.Answer? && body.result.Obj? && body.result.fields.Keys == {"namespaces", "backups"}
    ensures body.result.fields["namespaces"] == List(Strs(db.order))
    ensures body.result.fields["backups"] == List([])
    ensures var names := body.result.fields["namespaces"];
      && names.List?
      && (forall i | 0 <= i < |names.items| :: names.items[i].Str? && names.items[i].s in db.db)
      && (forall ns | ns in db.db :: Str(ns) in names.items)
      && (forall i, j | 0 <= i < j < |names.items| :: names.items[i] != names.items[j])
  {
    var names := db.GetNamespaces();
    var listed := Strs(names);
    forall ns | ns in db.db
      ensures Str(ns) in listed
    {
      var i :| 0 <= i < |names| && names[i] == ns;
      assert listed[i] == Str(ns);
    }
    body := Answer(Obj(map["namespaces" := List(listed), "backups" := List([])]));
  }

  // ------------------------------------------------------------ fan

  /** The fan parameter: a falsy value selects the part fan, a string is
      normalised; any other value makes the handler raise (None here). */
  function FanName(v: Value): (r: Option<Option<string>>)
    ensures !Truthy(v) ==> r == Some(None)
    ensures Truthy(v) && v.Str? ==> r == Some(Some(v.s))
    ensures Truthy(v) && !v.Str? ==> r.None?
  {
    if !Truthy(v) then Some(None) else if v.Str? then Some(Some(v.s)) else None
  }

  /** printer.fan.set_speed: an invalid fan or speed is a code-400 error and
      nothing is sent or echoed; otherwise the command's line is sent and
      speed/255 is echoed to the target's objects. */
  method SetFanSpeed(params: map<string, Value>, client: DeviceLink.BambuClient, store: StateStore.StateManager,
                     now: real, freshId: string)
    returns (body: Body)
    requires client.Valid() && store.Valid()
    modifies client, store
    ensures client.Valid() && store.Valid()
    ensures client.hasSession == old(client.hasSession) && client.connected == old(client.connected)
    ensures match FanName(Get(params, "fan"))
      case None => body == Raised && client.outbox == old(client.outbox) && store.state == old(store.state)
      case Some(name) =>
        match FanControl.BuildFanCommand(name, Get(params, "speed"))
        case Err(e) => body == Failure(400, FanRejected(e)) && client.outbox == old(client.outbox) && store.state == old(store.state)
        case Ok(c) =>
          && body == Answer(Str("ok"))
          && client.outbox == old(client.outbox) + GcodeScript.Outbounds(client.serial, [DeviceLink.GcodeLine(c.gcode)], old(client.Linked()))
          && store.state == StateStore.Applied(old(store.state), GcodeScript.FanEcho(c))
  {
    var name := FanName(Get(params, "fan"));
    if name.None? {
      return Raised;
    }
    var command := FanControl.BuildFanCommand(name.value, Get(params, "speed"));
    if command.Err? {
      return Failure(400, FanRejected(command.error));
    }
    var c := command.value;
    GcodeScript.OutboundsOne(client.serial, DeviceLink.GcodeLine(c.gcode), client.Linked());
    client.SendGcodeLine(c.gcode);
    GcodeScript.Echo(store, GcodeScript.FanEcho(c), now, freshId);
    body := Answer(Str("ok"));
  }

  // ------------------------------------------------------------ gcode.script

  /** printer.gcode.script: the script runs line by line; a line that fails
      ends the run with a code-400 error, and the lines before it keep their
      effect. A script that is not a string makes the handler raise. */
  method RunScript(params: map<string, Value>, client: DeviceLink.BambuClient, store: StateStore.StateManager,
                   now: real, freshId: string)
    returns (body: Body)
    requires client.Valid() && store.Valid()
    modifies client, store
    ensures client.Valid() && store.Valid()
    ensures client.hasSession == old(client.hasSession) && client.connected == old(client.connected)
    ensures match GetOr(params, "script", Str(""))
      case Str(script) =>
        var run := GcodeScript.ScriptRun(GcodeScript.Lines(script), old(client.Linked()));
        && body == (if run.halted.Some? then Failure(400, ScriptRejected(run.halted.value)) else Answer(Str("ok")))
        && client.outbox == old(client.outbox) + GcodeScript.Outbounds(client.serial, run.sent, old(client.Linked()))
        && store.state == GcodeScript.AppliedAll(old(store.state), run.echoes)
      case _ => body == Raised && client.outbox == old(client.outbox) && store.state == old(store.state)
  {
    var script := GetOr(params, "script", Str(""));
    if !script.Str? {
      return Raised;
    }
    var r := GcodeScript.RunScript(script.s, client, store, now, freshId);
    if r.Err? {
      return Failure(400, ScriptRejected(r.error));
    }
    body := Answer(Str("ok"));
  }

  // ------------------------------------------------------------ dispatch

  /** Webcam errors: an entry that is not a list, or a camera without a uid,
      makes the handler raise. */
  function WebcamBody(r: Result<Value, Webcams.WebcamError>): Body {
    if r.Ok? then Answer(r.value) else Raised
  }

  /** The answers of the read-only branches, from the request's parameters,
      the printer state, its temperature history and the database. */
  predicate InspectedAnswer(route: Route, params: map<string, Value>, env: Env, st: StateStore.State,
                            history: StateStore.History, dbm: Database.Db, order: seq<string>, body: Body) {
    && (route == Unknown ==> body == Answer(Obj(map[])))
    && (route == ObjectsQuery || route == ObjectsSubscribe ==> body == QueryBody(st, params, env.now))
    && (FixedName(route).Some? ==> body == Fixed(FixedName(route).value))
    && (route == ObjectsList ==> body == Objects(st.Keys))
    && (route == DatabaseList ==>
          body == Answer(Obj(map["namespaces" := List(Strs(order)), "backups" := List([])])))
    && (route == TemperatureHistory ==> body == TemperatureStore(StateStore.TemperatureHistory(st, history)))
    && (route == Identify ==> body == Answer(Obj(map["connection_id" := Num(env.connectionId as real)])))
    && (route == WebcamsList ==>
          body == Answer(Webcams.ListAnswer(Database.Lookup(dbm, Webcams.Namespace, Some(Webcams.Key)))))
    && (route == HistoryList ==> body == Delegated("server.history.list"))
    && (route == HistoryTotals ==> body == Delegated("server.history.totals"))
  }

  /** The branches that call `.get` on the request's "params" value, which
      raises AttributeError when that value is not an object. */
  predicate ReadsParams(r: Route) {
    r in {ObjectsQuery, ObjectsSubscribe, DatabaseGet, DatabasePost, DatabaseDelete, TemperatureHistory,
          FilesMetadata, FanSetSpeed, WebcamsPost, WebcamsDelete, Script, FilesList, GetDirectory, HistoryList}
  }

  /** Whether the branch gets as far as its parameters: they are an object,
      or the branch does not read them. */
  predicate Accepted(req: Request) {
    req.params.Obj? || !ReadsParams(RouteOf(req.name))
  }

  /** The parameters as an object; the branches that run with anything else
      do not read them. */
  function ParamsOf(req: Request): map<string, Value> {
    if req.params.Obj? then req.params.fields else map[]
  }

  /** A request object without a "params" member reaches every branch, since
      `request.get("params", {})` then gives an empty object. */
  lemma AbsentParamsAccepted(v: Value)
    requires v.Obj? && "params" !in v.fields
    ensures RequestOf(v).Some? && Accepted(RequestOf(v).value)
    ensures ParamsOf(RequestOf(v).value) == map[]
  {
  }

  /** A null "params" stops printer.objects.query, but not server.info. */
  lemma NullParams()
    ensures !Accepted(Request(Num(1.0), Str("printer.objects.query"), Null))
    ensures Accepted(Request(Num(1.0), Str("server.info"), Null))
  {
    assert RouteOf(Str("printer.objects.query")) == ObjectsQuery;
    assert RouteOf(Str("server.info")) == ServerInfo;
  }

  /** handle_jsonrpc: the response always carries the request's id; a branch
      that reads parameters which are not an object raises before it has
      any effect; an
      unknown method is answered with {} and changes nothing; the queries
      answer the requested objects the state has; the read-only branches
      change nothing. `cacheWrite` is the listing to store in the file cache. */
  method HandleJsonRpc(req: Request, env: Env, store: StateStore.StateManager, db: Database.DatabaseManager,
                       client: DeviceLink.BambuClient, ftp: FileBridge.BambuFTPSClient)
    returns (resp: Response, cacheWrite: Option<seq<FileBridge.Entry>>)
    requires store.Valid() && db.Valid() && client.Valid() && ftp.Valid()
    modifies store, db, client, ftp
    ensures store.Valid() && db.Valid() && client.Valid() && ftp.Valid()
    ensures resp.id == req.id
    ensures !Accepted(req) ==>
      resp.body == Raised && cacheWrite.None? && unchanged(store) && unchanged(db) && unchanged(client) && unchanged(ftp)
    ensures var route := RouteOf(req.name);
      && (ReadOnly(route) && Accepted(req) ==>
            InspectedAnswer(route, ParamsOf(req), env, old(store.state), old(store.history), old(db.db), old(db.order), resp.body))
      && (ReadOnly(route) ==>
            unchanged(store) && unchanged(db) && unchanged(client) && unchanged(ftp) && cacheWrite.None?)
      && (ReachOf(route) == Stores ==>
            unchanged(store) && unchanged(client) && unchanged(ftp) && cacheWrite.None?)
      && (route == DatabaseGet && Accepted(req) ==>
            && ReadOutcome(ParamsOf(req), old(db.db), resp.body, db.db)
            && db.order == old(db.order) && db.saved == old(db.saved))
  {
    if !Accepted(req) {
      return Response(req.id, Raised), None;
    }
    var body;
    body, cacheWrite := Dispatch(RouteOf(req.name), ParamsOf(req), env, store, db, client, ftp);
    resp := Response(req.id, body);
  }

  /** The branch for a route. */
  method Dispatch(route: Route, params: map<string, Value>, env: Env, store: StateStore.StateManager, db: Database.DatabaseManager,
                  client: DeviceLink.BambuClient, ftp: FileBridge.BambuFTPSClient)
    returns (body: Body, cacheWrite: Option<seq<FileBridge.Entry>>)
    requires store.Valid() && db.Valid() && client.Valid() && ftp.Valid()
    modifies store, db, client, ftp
    ensures store.Valid() && db.Valid() && client.Valid() && ftp.Valid()
    ensures ReadOnly(route) ==>
      InspectedAnswer(route, params, env, old(store.state), old(store.history), old(db.db), old(db.order), body)
    ensures ReadOnly(route) ==>
      unchanged(store) && unchanged(db) && unchanged(client) && unchanged(ftp) && cacheWrite.None?
    ensures ReachOf(route) == Stores ==>
      unchanged(store) && unchanged(client) && unchanged(ftp) && cacheWrite.None?
    ensures route == DatabaseGet ==>
      ReadOutcome(params, old(db.db), body, db.db) && db.order == old(db.order) && db.saved == old(db.saved)
  {
    if ReadOnly(route) {
      body := Inspect(route, params, env, store, db);
      cacheWrite := None;
    } else {
      body, cacheWrite := Change(route, params, env, store, db, client, ftp);
    }
  }

  /** The branches that write: to the database, to the printer or through
      the file bridge. */
  method Change(route: Route, params: map<string, Value>, env: Env, store: StateStore.StateManager, db: Database.DatabaseManager,
                client: DeviceLink.BambuClient, ftp: FileBridge.BambuFTPSClient)
    returns (body: Body, cacheWrite: Option<seq<FileBridge.Entry>>)
    requires store.Valid() && db.Valid() && client.Valid() && ftp.Valid()
    modifies store, db, client, ftp
    ensures store.Valid() && db.Valid() && client.Valid() && ftp.Valid()
    ensures ReachOf(route) == Stores ==>
      unchanged(store) && unchanged(client) && unchanged(ftp) && cacheWrite.None?
    ensures route == DatabaseGet ==>
      ReadOutcome(params, old(db.db), body, db.db) && db.order == old(db.order) && db.saved == old(db.saved)
  {
    cacheWrite := None;
    match ReachOf(route) {
      case Reads =>
        // Dispatch sends these routes to Inspect.
        body := Answer(Obj(map[]));
      case Stores =>
        body := ChangeDatabase(route, params, env, db);
      case Drives =>
        body := ChangePrinter(route, params, env, store, client);
      case Lists =>
        body, cacheWrite := ChangeFiles(route, params, env, ftp);
    }
  }

  /** The branches that only read. */
  method Inspect(route: Route, params: map<string, Value>, env: Env, store: StateStore.StateManager, db: Database.DatabaseManager)
    returns (body: Body)
    requires ReadOnly(route) && db.Valid()
    ensures InspectedAnswer(route, params, env, store.state, store.history, db.db, db.order, body)
  {
    if FixedName(route).Some? {
      return Fixed(FixedName(route).value);
    }
    match route {
      case ObjectsList =>
        body := Objects(store.state.Keys);
      case ObjectsQuery =>
        body := Query(params, store.state, env.now);
      case ObjectsSubscribe =>
        body := Query(params, store.state, env.now);
      case DatabaseList =>
        body := ListNamespaces(db);
      case TemperatureHistory =>
        var h := store.GetTemperatureHistory();
        body := TemperatureStore(h);
      case Identify =>
        body := Answer(Obj(map["connection_id" := Num(env.connectionId as real)]));
      case WebcamsList =>
        var stored := db.GetItem(Webcams.Namespace, Some(Webcams.Key));
        body := Answer(Webcams.ListAnswer(stored));
      case HistoryList =>
        body := Delegated("server.history.list");
      case HistoryTotals =>
        body := Delegated("server.history.totals");
      case _ =>
        body := Answer(Obj(map[]));
    }
  }

  /** The branches that write to the database. */
  method ChangeDatabase(route: Route, params: map<string, Value>, env: Env, db: Database.DatabaseManager)
    returns (body: Body)
    requires db.Valid()
    modifies db
    ensures db.Valid()
    ensures route == DatabaseGet ==>
      ReadOutcome(params, old(db.db), body, db.db) && db.order == old(db.order) && db.saved == old(db.saved)
  {
    match route {
      case DatabaseGet =>
        body := GetItem(params, db);
      case DatabasePost =>
        body := PostItem(params, db);
      case DatabaseDelete =>
        body := DeleteItem(params, db);
      case WebcamsPost =>
        var r := Webcams.PostItem(db, params, env.freshId);
        body := WebcamBody(r);
      case WebcamsDelete =>
        var r := Webcams.DeleteItem(db, params);
        body := WebcamBody(r);
      case _ =>
        body := Answer(Obj(map[]));
    }
  }

  /** The branches that drive the printer. */
  method ChangePrinter(route: Route, params: map<string, Value>, env: Env, store: StateStore.StateManager,
                       client: DeviceLink.BambuClient)
    returns (body: Body)
    requires store.Valid() && client.Valid()
    modifies store, client
    ensures store.Valid() && client.Valid()
  {
    if route == FanSetSpeed {
      body := SetFanSpeed(params, client, store, env.now, env.freshId);
    } else {
      body := RunScript(params, client, store, env.now, env.freshId);
    }
  }

  /** The branches that list files over the bridge. */
  method ChangeFiles(route: Route, params: map<string, Value>, env: Env, ftp: FileBridge.BambuFTPSClient)
    returns (body: Body, cacheWrite: Option<seq<FileBridge.Entry>>)
    requires ftp.Valid()
    modifies ftp
    ensures ftp.Valid()
  {
    if route == FilesList {
      body := Files(params, env, ftp);
      cacheWrite := None;
    } else {
      body, cacheWrite := Directories(params, env, ftp);
    }
  }

  /** printer.objects.query and printer.objects.subscribe. */
  method Query(params: map<string, Value>, st: StateStore.State, now: real) returns (body: Body)
    ensures body == QueryBody(st, params, now)
  {
    var objects := GetOr(params, "objects", Obj(map[]));
    if !objects.Obj? {
      return Raised;
    }
    var status := QueryStatus(st, objects.fields.Keys);
    body := Answer(Obj(map["status" := StateJson(status), "eventtime" := Num(now)]));
  }

  /** server.files.list: a root that is not a string matches neither root
      and lists nothing. */
  method Files(params: map<string, Value>, env: Env, ftp: FileBridge.BambuFTPSClient) returns (body: Body)
    requires ftp.Valid()
    modifies ftp
    ensures ftp.Valid()
    ensures var root := GetOr(params, "root", Str("gcodes"));
      && body.FileList? && body.root == root
      && (root.Str? && root.s == "gcodes" && env.hasSerial ==>
            body.listing == Listing.FileListFor(root.s, env.hasSerial,
              FileBridge.ListingOutcome(old(ftp.session), ftp.uploadsDir, env.srv, env.now), env.now)
            && (ftp.session.Some? <==> FileBridge.Reaches(old(ftp.session), env.srv))
            && ftp.log == old(ftp.log) + FileBridge.ListingLog(old(ftp.session), ftp.uploadsDir, env.srv))
      && (!(root.Str? && root.s == "gcodes" && env.hasSerial) ==> ftp.session == old(ftp.session) && ftp.log == old(ftp.log))
      && (root.Str? && !(root.s == "gcodes" && env.hasSerial) ==>
            body.listing == Listing.FileListFor(root.s, env.hasSerial, Ok([]), env.now))
      && (!root.Str? ==> body.listing == Listing.Files([]))
  {
    var root := GetOr(params, "root", Str("gcodes"));
    if !root.Str? {
      return FileList(root, Listing.Files([]));
    }
    var listing := Listing.BuildFileList(root.s, env.hasSerial, ftp, env.srv, env.now);
    body := FileList(root, listing);
  }

  /** server.files.get_directory: a path that is not a string makes the
      handler raise before anything is fetched. */
  method Directories(params: map<string, Value>, env: Env, ftp: FileBridge.BambuFTPSClient)
    returns (body: Body, cacheWrite: Option<seq<FileBridge.Entry>>)
    requires ftp.Valid()
    modifies ftp
    ensures ftp.Valid()
    ensures var path := GetOr(params, "path", Str("gcodes"));
      && (!path.Str? ==> body == Raised && cacheWrite.None? && ftp.session == old(ftp.session) && ftp.log == old(ftp.log))
      && (path.Str? ==> body.Directory?)
      && (path.Str? && !env.hasSerial && path.s == "gcodes" ==> body == Directory(Listing.MockDirectory) && cacheWrite.None?)
      && (path.Str? && Listing.Fetches(path.s, env.hasSerial, env.cached) ==>
            var fetched := FileBridge.ListingOutcome(old(ftp.session), Listing.FtpsPath(path.s, ftp.uploadsDir), env.srv, env.now);
            && body.directory == Listing.Directory(Listing.DirItems(path.s, Listing.Source(path.s, env.cached, fetched)),
                                                   Listing.FileItems(path.s, Listing.Source(path.s, env.cached, fetched)))
            && cacheWrite == Listing.CacheWrite(path.s, env.cached, fetched)
            && (ftp.session.Some? <==> FileBridge.Reaches(old(ftp.session), env.srv))
            && ftp.log == old(ftp.log) + FileBridge.ListingLog(old(ftp.session), Listing.FtpsPath(path.s, ftp.uploadsDir), env.srv))
      && (path.Str? && !Listing.Fetches(path.s, env.hasSerial, env.cached) ==>
            ftp.session == old(ftp.session) && ftp.log == old(ftp.log))
      && (path.Str? && env.hasSerial && path.s == "gcodes" && env.cached.Some? ==>
            body.directory == Listing.Directory(Listing.DirItems(path.s, env.cached.value), Listing.FileItems(path.s, env.cached.value))
            && cacheWrite.None?)
  {
    var path := GetOr(params, "path", Str("gcodes"));
    if !path.Str? {
      return Raised, None;
    }
    var d;
    d, cacheWrite := Listing.GetDirectory(path.s, env.hasSerial, env.cached, ftp, env.srv, env.now);
    body := Directory(d);
  }
}
