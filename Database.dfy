/** The namespaced key/value store that the dashboard keeps its settings in:
    a map from namespace to a map from key to JSON value, written out whole
    after every change. */
module Database {
  import opened Wrappers
  import opened Json

  type Namespace = map<string, Value>
  type Db = map<string, Namespace>

  /** What the store writes to its file: the namespaces with their order. */
  datatype Snapshot = Snapshot(db: Db, order: seq<string>)

  predicate Distinct(s: seq<string>) {
    forall i, j :: 0 <= i < j < |s| ==> s[i] != s[j]
  }

  /** The namespace order lists every namespace exactly once. */
  ghost predicate WellFormed(s: Snapshot) {
    Distinct(s.order) && (forall ns :: ns in s.db <==> ns in s.order)
  }

  /** A key selects one entry only when it is truthy (present and non-empty). */
  predicate Truthy(key: Option<string>) {
    key.Some? && key.value != ""
  }

  // --------------------------------------------------------- the operations

  /** get_item: nothing for a missing namespace, one entry for a truthy key,
      the whole namespace otherwise. */
  function Lookup(db: Db, ns: string, key: Option<string>): (r: Value)
    ensures ns !in db ==> r == Null
    ensures ns in db && Truthy(key) ==> r == Get(db[ns], key.value)
    ensures ns in db && !Truthy(key) ==> r == Obj(db[ns])
  {
    if ns !in db then Null
    else if Truthy(key) then Get(db[ns], key.value)
    else Obj(db[ns])
  }

  function Current(db: Db, ns: string): Namespace {
    if ns in db then db[ns] else map[]
  }

  /** post_item: the namespace is created if needed; a truthy key stores the
      value, no key merges an object value in, any other value is dropped. */
  function Posted(db: Db, ns: string, key: Option<string>, value: Value): (r: Db)
    ensures r.Keys == db.Keys + {ns}
  {
    if Truthy(key) then db[ns := Current(db, ns)[key.value := value]]
    else if value.Obj? then db[ns := Current(db, ns) + value.fields]
    else db[ns := Current(db, ns)]
  }

  /** Adding the namespace first (an empty one when missing) does not change
      what a post then leaves behind. */
  lemma PostedAfterAdd(db: Db, ns: string, key: Option<string>, value: Value)
    ensures Posted(db[ns := Current(db, ns)], ns, key, value) == Posted(db, ns, key, value)
  {
  }

  /** What post_item answers: the stored value, or the whole namespace. */
  function PostAnswer(db: Db, ns: string, key: Option<string>, value: Value): Value {
    var after := Posted(db, ns, key, value);
    if Truthy(key) then Get(after[ns], key.value) else Obj(after[ns])
  }

  /** Whether delete_item finds something to delete. */
  predicate Deletable(db: Db, ns: string, key: Option<string>) {
    ns in db && key.Some? && key.value in db[ns]
  }

  function Deleted(db: Db, ns: string, key: Option<string>): Db {
    if Deletable(db, ns, key) then db[ns := db[ns] - {key.value}] else db
  }

  /** The namespaces named, in first-mention order, that are not yet known. */
  function NewNames(known: set<string>, names: seq<string>): (r: seq<string>)
    decreases |names|
  {
    if |names| == 0 then []
    else
      var prev := NewNames(known, names[..|names| - 1]);
      var n := names[|names| - 1];
      if n in known || n in prev then prev else prev + [n]
  }

  /** ensure_namespaces: an empty map for every missing namespace. */
  function Ensured(db: Db, names: seq<string>): (r: Db) {
    db + map ns | ns in names && ns !in db :: map[]
  }

  // --------------------------------------------------------------- lemmas

  /** A stored value reads back under its key. */
  lemma PostThenGet(db: Db, ns: string, key: string, value: Value)
    requires key != ""
    ensures Lookup(Posted(db, ns, Some(key), value), ns, Some(key)) == value
    ensures PostAnswer(db, ns, Some(key), value) == value
  {
  }

  /** Posting touches one entry of one namespace. */
  lemma PostIsLocal(db: Db, ns: string, key: string, value: Value, ns2: string, key2: string)
    requires key != "" && key2 != "" && (ns2 != ns || key2 != key)
    ensures Lookup(Posted(db, ns, Some(key), value), ns2, Some(key2)) == Lookup(db, ns2, Some(key2))
  {
  }

  /** A keyless object post overwrites the supplied keys and keeps the others. */
  lemma MergeOverwritesAndKeeps(db: Db, ns: string, key: Option<string>, fields: map<string, Value>, k: string)
    requires !Truthy(key)
    ensures var after := Posted(db, ns, key, Obj(fields))[ns];
      && (k in fields ==> k in after && after[k] == fields[k])
      && (k !in fields && ns in db && k in db[ns] ==> k in after && after[k] == db[ns][k])
      && (k in after <==> k in fields || (ns in db && k in db[ns]))
  {
  }

  /** A keyless post of anything but an object only creates the namespace. */
  lemma NonObjectMergeChangesNothing(db: Db, ns: string, key: Option<string>, value: Value)
    requires !Truthy(key) && !value.Obj?
    ensures Posted(db, ns, key, value) == db[ns := Current(db, ns)]
    ensures ns in db ==> Posted(db, ns, key, value) == db
  {
  }

  /** Deleting removes just that key; every other entry stays. */
  lemma DeleteOnlyThatKey(db: Db, ns: string, key: string)
    requires Deletable(db, ns, Some(key))
    ensures var after := Deleted(db, ns, Some(key));
      && after.Keys == db.Keys
      && key !in after[ns]
      && (forall k | k in db[ns] && k != key :: k in after[ns] && after[ns][k] == db[ns][k])
      && after[ns].Keys == db[ns].Keys - {key}
      && (forall ns2 | ns2 in db && ns2 != ns :: after[ns2] == db[ns2])
  {
  }

  /** Nothing to delete leaves the store as it is. */
  lemma DeleteMissingChangesNothing(db: Db, ns: string, key: Option<string>)
    requires !Deletable(db, ns, key)
    ensures Deleted(db, ns, key) == db
  {
  }

  /** Existing namespaces are untouched, missing ones start empty, nothing
      else appears. */
  lemma EnsureKeepsExisting(db: Db, names: seq<string>, ns: string)
    ensures ns in db ==> Ensured(db, names)[ns] == db[ns]
    ensures ns !in db && ns in names ==> ns in Ensured(db, names) && Ensured(db, names)[ns] == map[]
    ensures ns in Ensured(db, names) <==> ns in db || ns in names
  {
  }

  /** Ensuring the same namespaces twice is ensuring them once. */
  lemma EnsureIdempotent(db: Db, names: seq<string>)
    ensures Ensured(Ensured(db, names), names) == Ensured(db, names)
  {
    var once := Ensured(db, names);
    assert forall ns | ns in names :: ns in once;
  }

  lemma {:induction false} NewNamesAreNew(known: set<string>, names: seq<string>)
    ensures Distinct(NewNames(known, names))
    ensures forall n :: n in NewNames(known, names) <==> n in names && n !in known
    decreases |names|
  {
    if |names| > 0 {
      var init := names[..|names| - 1];
      NewNamesAreNew(known, init);
      assert names == init + [names[|names| - 1]];
    }
  }

  lemma EnsuredStep(db: Db, names: seq<string>, i: nat)
    requires i < |names|
    ensures var before := Ensured(db, names[..i]);
      Ensured(db, names[..i + 1]) == if names[i] in before then before else before[names[i] := map[]]
  {
    var before := Ensured(db, names[..i]);
    var after := Ensured(db, names[..i + 1]);
    assert forall n :: n in names[..i + 1] <==> n in names[..i] || n == names[i] by {
      assert names[..i + 1] == names[..i] + [names[i]];
    }
    var expected := if names[i] in before then before else before[names[i] := map[]];
    assert after.Keys == expected.Keys;
    assert forall n | n in after :: after[n] == expected[n];
  }

  lemma NewNamesStep(known: set<string>, names: seq<string>, i: nat)
    requires i < |names|
    ensures NewNames(known, names[..i + 1]) ==
      var prev := NewNames(known, names[..i]);
      if names[i] in known || names[i] in prev then prev else prev + [names[i]]
  {
    assert names[..i + 1][..i] == names[..i];
  }

  // ------------------------------------------------------------ the store

  class DatabaseManager {
    var db: Db
    /** The namespaces in insertion order (the file and get_namespaces use it). */
    var order: seq<string>
    /** Every snapshot written to the file, oldest first. */
    var saved: seq<Snapshot>

    ghost predicate Valid()
      reads this
    {
      WellFormed(Snapshot(db, order))
    }

    /** _load: the file's contents, or an empty store when it is missing or
        unreadable. */
    constructor(stored: Option<Snapshot>)
      requires stored.Some? ==> WellFormed(stored.value)
      ensures Valid() && saved == []
      ensures stored.Some? ==> db == stored.value.db && order == stored.value.order
      ensures stored.None? ==> db == map[] && order == []
    {
      saved := [];
      match stored
      case Some(s) =>
        db := s.db;
        order := s.order;
      case None =>
        db := map[];
        order := [];
    }

    method GetItem(ns: string, key: Option<string>) returns (r: Value)
      ensures r == Lookup(db, ns, key)
    {
      if ns !in db {
        return Null;
      }
      if key.Some? && key.value != "" {
        r := Get(db[ns], key.value);
      } else {
        r := Obj(db[ns]);
      }
    }

    /** get_item hands out the stored namespace itself, not a copy: changes a
        caller makes through that reference become the namespace's entries,
        and nothing is written to the file. */
    method WriteThrough(ns: string, entries: Namespace)
      requires Valid() && ns in db
      modifies this
      ensures Valid()
      ensures db == old(db)[ns := entries] && order == old(order) && saved == old(saved)
    {
      db := db[ns := entries];
    }

    /** The first half of post_item: a missing namespace starts empty. */
    method AddNamespace(ns: string)
      requires Valid()
      modifies this
      ensures Valid()
      ensures db == old(db)[ns := Current(old(db), ns)]
      ensures order == old(order) + (if ns in old(db) then [] else [ns])
      ensures saved == old(saved)
    {
      if ns !in db {
        db := db[ns := map[]];
        order := order + [ns];
      }
    }

    /** The second half of post_item: store under the key, or merge. */
    method StoreInto(ns: string, key: Option<string>, value: Value)
      requires Valid() && ns in db
      modifies this
      ensures Valid()
      ensures db == Posted(old(db), ns, key, value)
      ensures order == old(order) && saved == old(saved)
    {
      if key.Some? && key.value != "" {
        db := db[ns := db[ns][key.value := value]];
      } else if value.Obj? {
        db := db[ns := db[ns] + value.fields];
      }
    }

    /** post_item: always writes the file. */
    method PostItem(ns: string, key: Option<string>, value: Value) returns (r: Value)
      requires Valid()
      modifies this
      ensures Valid()
      ensures db == Posted(old(db), ns, key, value)
      ensures order == old(order) + (if ns in old(db) then [] else [ns])
      ensures saved == old(saved) + [Snapshot(db, order)]
      ensures r == PostAnswer(old(db), ns, key, value)
    {
      ghost var db0 := db;
      AddNamespace(ns);
      StoreInto(ns, key, value);
      assert db == Posted(db0, ns, key, value) by { PostedAfterAdd(db0, ns, key, value); }
      saved := saved + [Snapshot(db, order)];
      r := if key.Some? && key.value != "" then Get(db[ns], key.value) else Obj(db[ns]);
    }

    /** delete_item: the remaining namespace after a deletion, nothing otherwise. */
    method DeleteItem(ns: string, key: Option<string>) returns (r: Value)
      requires Valid()
      modifies this
      ensures Valid()
      ensures db == Deleted(old(db), ns, key) && order == old(order)
      ensures Deletable(old(db), ns, key) ==> r == Obj(db[ns]) && saved == old(saved) + [Snapshot(db, order)]
      ensures !Deletable(old(db), ns, key) ==> r == Null && saved == old(saved)
    {
      if ns in db && key.Some? && key.value in db[ns] {
        db := db[ns := db[ns] - {key.value}];
        saved := saved + [Snapshot(db, order)];
        return Obj(db[ns]);
      }
      r := Null;
    }

    /** get_namespaces: every namespace once, in insertion order. */
    method GetNamespaces() returns (names: seq<string>)
      requires Valid()
      ensures names == order
      ensures Distinct(names)
      ensures forall ns :: ns in names <==> ns in db
    {
      names := order;
    }

    /** ensure_namespaces: adds the missing namespaces, writing the file once
        if anything was added. */
    method EnsureNamespaces(names: seq<string>)
      requires Valid()
      modifies this
      ensures Valid()
      ensures db == Ensured(old(db), names)
      ensures order == old(order) + NewNames(old(db).Keys, names)
      ensures saved == old(saved) + (if db != old(db) then [Snapshot(db, order)] else [])
    {
      ghost var db0 := db;
      var updated := false;
      var i := 0;
      while i < |names|
        invariant 0 <= i <= |names|
        invariant db == Ensured(db0, names[..i])
        invariant order == old(order) + NewNames(db0.Keys, names[..i])
        invariant Valid()
        invariant updated <==> db != db0
        invariant saved == old(saved)
      {
        var ns := names[i];
        NewNamesStep(db0.Keys, names, i);
        NewNamesAreNew(db0.Keys, names[..i]);
        if ns !in db {
          db := db[ns := map[]];
          order := order + [ns];
          updated := true;
        }
        EnsuredStep(db0, names, i);
        i := i + 1;
      }
      assert names[..i] == names;
      if updated {
        saved := saved + [Snapshot(db, order)];
      }
    }
  }

  /** A value posted, saved and read back by a fresh store from the file is
      the same value. */
  method RestartKeepsItems(ns: string, key: string, value: Value) returns (read: Value)
    requires key != ""
    ensures read == value
  {
    var first := new DatabaseManager(None);
    var _ := first.PostItem(ns, Some(key), value);
    var second := new DatabaseManager(Some(first.saved[|first.saved| - 1]));
    read := second.GetItem(ns, Some(key));
    PostThenGet(map[], ns, key, value);
  }
}
