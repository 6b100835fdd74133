/** Turning the flat dotted keys of a stored namespace into nested objects:
    "a.b.c" becomes a -> b -> c, undotted keys are copied, and keys sharing a
    prefix meet under one parent. The cursor walk over the mutable nested
    dict is modelled as a rebuild of immutable values; the stored objects it
    places in the result and then walks through are followed explicitly
    (see Walk). */
module NestedKeys {
  import opened Wrappers
  import opened Json
  import Text

  /** The walk for this key met a value that is not an object. */
  datatype FlattenError = NotAnObject(key: string)

  /** key.split(".") */
  function Parts(key: string): (r: seq<string>)
    ensures |r| >= 1
  {
    Text.Split(key, '.')
  }

  /** The value reached from v along path q through objects, if any. */
  function AtPath(v: Value, q: seq<string>): Option<Value>
    decreases |q|
  {
    if |q| == 0 then Some(v)
    else if v.Obj? && q[0] in v.fields then AtPath(v.fields[q[0]], q[1..])
    else None
  }

  /** Puts v at path p below m, creating each missing object on the way;
      None when the walk meets a value that is not an object. */
  function InsertAt(m: map<string, Value>, p: seq<string>, v: Value): Option<map<string, Value>>
    requires |p| >= 1
    decreases |p|
  {
    if |p| == 1 then Some(m[p[0] := v])
    else
      var child := if p[0] in m then m[p[0]] else Obj(map[]);
      if !child.Obj? then None
      else match InsertAt(child.fields, p[1..], v)
        case None => None
        case Some(sub) => Some(m[p[0] := Obj(sub)])
  }

  /** A proper prefix of p already leads to a value that is not an object. */
  predicate Blocked(m: map<string, Value>, p: seq<string>) {
    exists i :: 1 <= i < |p| && NonObjectAt(m, p[..i])
  }

  predicate NonObjectAt(m: map<string, Value>, q: seq<string>) {
    AtPath(Obj(m), q).Some? && !AtPath(Obj(m), q).value.Obj?
  }

  /** Neither path is a prefix of the other. */
  predicate Unrelated(p: seq<string>, q: seq<string>) {
    !(p <= q) && !(q <= p)
  }

  /** The dotted-key conversion, key by key in order; the first key whose
      walk is blocked fails it. */
  function Flattened(flat: seq<(string, Value)>): Result<map<string, Value>, FlattenError>
    decreases |flat|
  {
    if |flat| == 0 then Ok(map[])
    else
      match Flattened(flat[..|flat| - 1])
      case Err(e) => Err(e)
      case Ok(m) =>
        var last := flat[|flat| - 1];
        match InsertAt(m, Parts(last.0), last.1)
        case None => Err(NotAnObject(last.0))
        case Some(m') => Ok(m')
  }

  /** flatten_to_nested, over the items of the live namespace `stored` in
      order: the nested result, and the namespace's entries as the walk
      leaves them. */
  method FlattenToNested(flat: seq<(string, Value)>, stored: map<string, Value>)
    returns (r: Result<map<string, Value>, FlattenError>, written: map<string, Value>)
    ensures r == Flattened(flat)
    ensures written == Walked(flat, stored).stored
  {
    var nested: map<string, Value> := map[];
    var live: set<string> := {};
    written := stored;
    var i := 0;
    while i < |flat|
      invariant 0 <= i <= |flat|
      invariant Walked(flat[..i], stored) == Walk(nested, live, written, None)
    {
      assert flat[..i + 1][..i] == flat[..i];
      var key := flat[i].0;
      var p := Parts(key);
      var inserted := InsertAt(nested, p, flat[i].1);
      if inserted.None? {
        WalkFailureSticks(flat, stored, i + 1);
        WalkedFlattens(flat, stored);
        return Err(NotAnObject(key)), written;
      }
      nested := inserted.value;
      live := set q | q in live && !(p <= Parts(q));
      if flat[i].1.Obj? {
        live := live + {key};
      }
      written := Refresh(written, live, nested);
      i := i + 1;
    }
    assert flat[..i] == flat;
    WalkedFlattens(flat, stored);
    r := Ok(nested);
  }

  /** Once a prefix of the items fails, the whole conversion fails with the same key. */
  lemma {:induction false} FailureSticks(flat: seq<(string, Value)>, k: nat)
    requires 1 <= k <= |flat|
    requires Flattened(flat[..k - 1]).Ok?
    requires InsertAt(Flattened(flat[..k - 1]).value, Parts(flat[k - 1].0), flat[k - 1].1).None?
    ensures Flattened(flat) == Err(NotAnObject(flat[k - 1].0))
    decreases |flat| - k
  {
    assert flat[..k][..k - 1] == flat[..k - 1];
    assert Flattened(flat[..k]) == Err(NotAnObject(flat[k - 1].0));
    ErrSticks(flat, k, NotAnObject(flat[k - 1].0));
  }

  lemma {:induction false} ErrSticks(flat: seq<(string, Value)>, k: nat, e: FlattenError)
    requires k <= |flat|
    requires Flattened(flat[..k]) == Err(e)
    ensures Flattened(flat) == Err(e)
    decreases |flat| - k
  {
    if k < |flat| {
      assert flat[..k + 1][..k] == flat[..k];
      ErrSticks(flat, k + 1, e);
    } else {
      assert flat[..k] == flat;
    }
  }

  // ------------------------------------------------------------ one insertion

  /** Following a path below an object starts at its first component. */
  lemma AtPathCons(m: map<string, Value>, q: seq<string>)
    requires |q| >= 1
    ensures AtPath(Obj(m), q) == if q[0] in m then AtPath(m[q[0]], q[1..]) else None
  {
  }

  /** The inserted value is found at its path. */
  lemma {:induction false} InsertReadsBack(m: map<string, Value>, p: seq<string>, v: Value)
    requires |p| >= 1 && InsertAt(m, p, v).Some?
    ensures AtPath(Obj(InsertAt(m, p, v).value), p) == Some(v)
    decreases |p|
  {
    var m' := InsertAt(m, p, v).value;
    AtPathCons(m', p);
    if |p| > 1 {
      var child := if p[0] in m then m[p[0]] else Obj(map[]);
      InsertReadsBack(child.fields, p[1..], v);
    }
  }

  /** Paths unrelated to the inserted one keep what they led to. */
  lemma {:induction false} InsertKeepsUnrelated(m: map<string, Value>, p: seq<string>, v: Value, q: seq<string>)
    requires |p| >= 1 && InsertAt(m, p, v).Some?
    requires Unrelated(p, q)
    ensures AtPath(Obj(InsertAt(m, p, v).value), q) == AtPath(Obj(m), q)
    decreases |p|
  {
    var m' := InsertAt(m, p, v).value;
    AtPathCons(m', q);
    AtPathCons(m, q);
    if q[0] == p[0] {
      var child := if p[0] in m then m[p[0]] else Obj(map[]);
      var sub := InsertAt(child.fields, p[1..], v).value;
      assert m'[p[0]] == Obj(sub);
      assert p == [p[0]] + p[1..] && q == [q[0]] + q[1..];
      assert Unrelated(p[1..], q[1..]);
      InsertKeepsUnrelated(child.fields, p[1..], v, q[1..]);
      AtPathCons(sub, q[1..]);
      AtPathCons(child.fields, q[1..]);
    }
  }

  /** Every proper prefix of the inserted path leads to an object afterwards. */
  lemma {:induction false} InsertMakesObjects(m: map<string, Value>, p: seq<string>, v: Value, i: nat)
    requires |p| >= 1 && InsertAt(m, p, v).Some?
    requires i < |p|
    ensures AtPath(Obj(InsertAt(m, p, v).value), p[..i]).Some?
    ensures AtPath(Obj(InsertAt(m, p, v).value), p[..i]).value.Obj?
    decreases |p|
  {
    var m' := InsertAt(m, p, v).value;
    if i > 0 {
      var child := if p[0] in m then m[p[0]] else Obj(map[]);
      var sub := InsertAt(child.fields, p[1..], v).value;
      AtPathCons(m', p[..i]);
      assert p[..i][0] == p[0] && p[..i][1..] == p[1..][..i - 1];
      InsertMakesObjects(child.fields, p[1..], v, i - 1);
    }
  }

  /** An insertion fails exactly when a proper prefix of its path already
      leads to a value that is not an object. */
  lemma {:induction false} InsertFailsIffBlocked(m: map<string, Value>, p: seq<string>, v: Value)
    requires |p| >= 1
    ensures InsertAt(m, p, v).None? <==> Blocked(m, p)
    decreases |p|
  {
    if |p| > 1 {
      if p[0] in m && !m[p[0]].Obj? {
        AtPathCons(m, p[..1]);
        assert p[..1][0] == p[0] && p[..1][1..] == [];
        assert NonObjectAt(m, p[..1]);
      } else {
        var child := if p[0] in m then m[p[0]] else Obj(map[]);
        InsertFailsIffBlocked(child.fields, p[1..], v);
        forall i | 1 <= i < |p|
          ensures NonObjectAt(m, p[..i]) <==> (i > 1 && NonObjectAt(child.fields, p[1..][..i - 1]))
        {
          AtPathCons(m, p[..i]);
          assert p[..i][0] == p[0] && p[..i][1..] == p[1..][..i - 1];
          if i > 1 {
            AtPathCons(child.fields, p[1..][..i - 1]);
            if p[0] !in m {
              assert AtPath(Obj(child.fields), p[1..][..i - 1]) == None;
            }
          }
        }
        if Blocked(child.fields, p[1..]) {
          var j :| 1 <= j < |p| - 1 && NonObjectAt(child.fields, p[1..][..j]);
          assert NonObjectAt(m, p[..j + 1]);
        }
      }
    }
  }

  // --------------------------------------------------------- whole conversion

  /** The component paths of the keys, in order. */
  function Paths(flat: seq<(string, Value)>): (r: seq<seq<string>>)
    ensures |r| == |flat|
  {
    seq(|flat|, i requires 0 <= i < |flat| => Parts(flat[i].0))
  }

  /** No key's components are a prefix of another key's. */
  predicate PrefixFree(flat: seq<(string, Value)>) {
    forall i, j | 0 <= i < |flat| && 0 <= j < |flat| && i != j :: !(Parts(flat[i].0) <= Parts(flat[j].0))
  }

  /** Every value that is not an object sits at or below one of the paths. */
  ghost predicate Supported(m: map<string, Value>, paths: seq<seq<string>>) {
    forall q | NonObjectAt(m, q) :: exists j :: 0 <= j < |paths| && paths[j] <= q
  }

  lemma InsertKeepsSupport(m: map<string, Value>, paths: seq<seq<string>>, p: seq<string>, v: Value)
    requires |p| >= 1 && InsertAt(m, p, v).Some? && Supported(m, paths)
    ensures Supported(InsertAt(m, p, v).value, paths + [p])
  {
    var m' := InsertAt(m, p, v).value;
    var ps := paths + [p];
    forall q | NonObjectAt(m', q)
      ensures exists j :: 0 <= j < |ps| && ps[j] <= q
    {
      if p <= q {
        assert ps[|paths|] == p;
      } else if q <= p {
        assert q == p[..|q|];
        InsertMakesObjects(m, p, v, |q|);
      } else {
        InsertKeepsUnrelated(m, p, v, q);
        assert NonObjectAt(m, q);
        var j :| 0 <= j < |paths| && paths[j] <= q;
        assert ps[j] == paths[j];
      }
    }
  }

  /** A key unrelated to every supporting path is not blocked. */
  lemma FreePathNotBlocked(m: map<string, Value>, paths: seq<seq<string>>, p: seq<string>)
    requires Supported(m, paths)
    requires forall j | 0 <= j < |paths| :: !(paths[j] <= p)
    ensures !Blocked(m, p)
  {
    forall i | 1 <= i < |p|
      ensures !NonObjectAt(m, p[..i])
    {
      forall j | 0 <= j < |paths|
        ensures !(paths[j] <= p[..i])
      {
      }
    }
  }

  /** With prefix-free keys the conversion succeeds and every key's value is
      found along its components, whatever else was merged under the same
      parents. */
  lemma {:induction false} PrefixFreeReadsBack(flat: seq<(string, Value)>)
    requires PrefixFree(flat)
    ensures Flattened(flat).Ok?
    ensures Supported(Flattened(flat).value, Paths(flat))
    ensures forall i | 0 <= i < |flat| :: AtPath(Obj(Flattened(flat).value), Parts(flat[i].0)) == Some(flat[i].1)
    decreases |flat|
  {
    if |flat| > 0 {
      var init := flat[..|flat| - 1];
      var last := flat[|flat| - 1];
      var p := Parts(last.0);
      assert PrefixFree(init) by {
        forall i, j | 0 <= i < |init| && 0 <= j < |init| && i != j
          ensures !(Parts(init[i].0) <= Parts(init[j].0))
        {
          assert init[i] == flat[i] && init[j] == flat[j];
        }
      }
      PrefixFreeReadsBack(init);
      var m := Flattened(init).value;
      assert Paths(flat) == Paths(init) + [p];
      forall j | 0 <= j < |Paths(init)|
        ensures !(Paths(init)[j] <= p)
      {
        assert init[j] == flat[j];
      }
      FreePathNotBlocked(m, Paths(init), p);
      InsertFailsIffBlocked(m, p, last.1);
      var m' := InsertAt(m, p, last.1).value;
      assert Flattened(flat) == Ok(m');
      InsertKeepsSupport(m, Paths(init), p, last.1);
      forall i | 0 <= i < |flat|
        ensures AtPath(Obj(m'), Parts(flat[i].0)) == Some(flat[i].1)
      {
        if i == |flat| - 1 {
          InsertReadsBack(m, p, last.1);
        } else {
          assert init[i] == flat[i];
          assert Unrelated(p, Parts(flat[i].0));
          InsertKeepsUnrelated(m, p, last.1, Parts(flat[i].0));
        }
      }
    }
  }

  /** An undotted key is copied as it is. */
  lemma UndottedCopied(m: map<string, Value>, key: string, v: Value)
    requires '.' !in key
    ensures InsertAt(m, Parts(key), v) == Some(m[key := v])
  {
    Text.SplitWithoutSeparator(key, '.');
  }

  /** A key "a.b" with undotted a and b lands at a -> b. */
  lemma TwoLevelKey(a: string, b: string)
    requires '.' !in a && '.' !in b
    ensures Parts(a + "." + b) == [a, b]
  {
    Text.SplitAtFirst(a, '.', b);
    Text.SplitWithoutSeparator(b, '.');
  }

  /** {"dashboard.layout": []} becomes {"dashboard": {"layout": []}}. */
  lemma DashboardLayout()
    ensures Flattened([("dashboard.layout", List([]))])
      == Ok(map["dashboard" := Obj(map["layout" := List([])])])
  {
    TwoLevelKey("dashboard", "layout");
    assert "dashboard" + "." + "layout" == "dashboard.layout";
    var flat := [("dashboard.layout", List([]))];
    assert flat[..0] == [];
  }

  // ------------------------------------------------ writes through the store

  /** flatten_to_nested walks the live namespace: an item whose value is an
      object is placed in the result itself, not a copy, so a later key that
      walks through it adds its member to the stored object as well. Walk
      makes that sharing explicit. `live` holds the items whose object still
      sits at its own key's path in `nested` (an insertion at or above that
      path replaces it there, and later walks no longer reach it); `stored`
      is the namespace's entries, kept equal to what `nested` holds at each
      live item's path. After a failed key nothing more happens. */
  datatype Walk = Walk(nested: map<string, Value>, live: set<string>, stored: map<string, Value>,
                       failed: Option<FlattenError>)

  /** The entries, with each live item's as `nested` now holds it. */
  function Refresh(stored: map<string, Value>, live: set<string>, nested: map<string, Value>): (r: map<string, Value>)
    ensures r.Keys == stored.Keys
  {
    map k | k in stored :: if k in live && AtPath(Obj(nested), Parts(k)).Some? then AtPath(Obj(nested), Parts(k)).value else stored[k]
  }

  /** One key of the walk. */
  function WalkStep(w: Walk, item: (string, Value)): (r: Walk)
    ensures r.stored.Keys == w.stored.Keys
  {
    if w.failed.Some? then w
    else
      var p := Parts(item.0);
      match InsertAt(w.nested, p, item.1)
      case None => w.(failed := Some(NotAnObject(item.0)))
      case Some(n) =>
        var kept := set q | q in w.live && !(p <= Parts(q));
        var live := if item.1.Obj? then kept + {item.0} else kept;
        Walk(n, live, Refresh(w.stored, live, n), None)
  }

  /** The walk over the items in order, starting from the entries `stored`. */
  function Walked(flat: seq<(string, Value)>, stored: map<string, Value>): (r: Walk)
    ensures r.stored.Keys == stored.Keys
    decreases |flat|
  {
    if |flat| == 0 then Walk(map[], {}, stored, None)
    else WalkStep(Walked(flat[..|flat| - 1], stored), flat[|flat| - 1])
  }

  /** The walk builds exactly the conversion, and stops at its failing key. */
  lemma {:induction false} WalkedFlattens(flat: seq<(string, Value)>, stored: map<string, Value>)
    ensures Walked(flat, stored).failed.None? ==> Flattened(flat) == Ok(Walked(flat, stored).nested)
    ensures Walked(flat, stored).failed.Some? ==> Flattened(flat) == Err(Walked(flat, stored).failed.value)
    decreases |flat|
  {
    if |flat| > 0 {
      WalkedFlattens(flat[..|flat| - 1], stored);
    }
  }

  /** Nothing happens after a failed key. */
  lemma {:induction false} WalkFailureSticks(flat: seq<(string, Value)>, stored: map<string, Value>, k: nat)
    requires k <= |flat| && Walked(flat[..k], stored).failed.Some?
    ensures Walked(flat, stored) == Walked(flat[..k], stored)
    decreases |flat| - k
  {
    if k < |flat| {
      assert flat[..k + 1][..k] == flat[..k];
      WalkFailureSticks(flat, stored, k + 1);
    } else {
      assert flat[..k] == flat;
    }
  }

  /** The live items are items with object values. */
  lemma {:induction false} LiveAreObjectItems(flat: seq<(string, Value)>, stored: map<string, Value>)
    ensures forall q | q in Walked(flat, stored).live :: exists j :: 0 <= j < |flat| && flat[j].0 == q && flat[j].1.Obj?
    decreases |flat|
  {
    if |flat| > 0 {
      var init := flat[..|flat| - 1];
      LiveAreObjectItems(init, stored);
      forall q | q in Walked(flat, stored).live
        ensures exists j :: 0 <= j < |flat| && flat[j].0 == q && flat[j].1.Obj?
      {
        if q in Walked(init, stored).live {
          var j :| 0 <= j < |init| && init[j].0 == q && init[j].1.Obj?;
          assert flat[j] == init[j];
        } else {
          assert flat[|flat| - 1].0 == q;
        }
      }
    }
  }

  /** The answer and the store agree on every object they still share: each
      live item's entry is what the nested result holds at its key's path. */
  lemma {:induction false} LiveItemsMatchResult(flat: seq<(string, Value)>, stored: map<string, Value>)
    requires forall i | 0 <= i < |flat| :: flat[i].0 in stored
    ensures var w := Walked(flat, stored);
      forall q | q in w.live :: q in w.stored && AtPath(Obj(w.nested), Parts(q)) == Some(w.stored[q])
    decreases |flat|
  {
    LiveAreObjectItems(flat, stored);
    if |flat| > 0 {
      var init := flat[..|flat| - 1];
      var item := flat[|flat| - 1];
      var w := Walked(init, stored);
      LiveItemsMatchResult(init, stored);
      LiveAreObjectItems(init, stored);
      var p := Parts(item.0);
      if w.failed.None? && InsertAt(w.nested, p, item.1).Some? {
        var n := InsertAt(w.nested, p, item.1).value;
        var w' := Walked(flat, stored);
        forall q | q in w'.live
          ensures AtPath(Obj(n), Parts(q)).Some?
        {
          if q == item.0 && item.1.Obj? {
            InsertReadsBack(w.nested, p, item.1);
          } else if Unrelated(p, Parts(q)) {
            InsertKeepsUnrelated(w.nested, p, item.1, Parts(q));
          } else {
            assert Parts(q) == p[..|Parts(q)|];
            InsertMakesObjects(w.nested, p, item.1, |Parts(q)|);
          }
        }
      }
    }
  }

  /** Only stored objects that the walk placed can change. */
  lemma {:induction false} OnlyPlacedObjectsChange(flat: seq<(string, Value)>, stored: map<string, Value>)
    requires forall i | 0 <= i < |flat| :: flat[i].0 in stored && stored[flat[i].0] == flat[i].1
    ensures var w := Walked(flat, stored);
      forall k | k in stored && w.stored[k] != stored[k] :: stored[k].Obj? && exists j :: 0 <= j < |flat| && flat[j].0 == k
    decreases |flat|
  {
    LiveAreObjectItems(flat, stored);
    if |flat| > 0 {
      var init := flat[..|flat| - 1];
      OnlyPlacedObjectsChange(init, stored);
      LiveAreObjectItems(init, stored);
      var w := Walked(init, stored);
      var w' := Walked(flat, stored);
      forall k | k in stored && w'.stored[k] != stored[k]
        ensures stored[k].Obj? && exists j :: 0 <= j < |flat| && flat[j].0 == k
      {
        if w.stored[k] != stored[k] {
          var j :| 0 <= j < |init| && init[j].0 == k;
          assert flat[j] == init[j];
        } else {
          assert k in w'.live;
          var j :| 0 <= j < |flat| && flat[j].0 == k && flat[j].1.Obj?;
        }
      }
    }
  }

  /** A key unrelated to every live item's path leaves the entries alone
      when the value it places is the entry's own. */
  lemma StepKeepsStore(w: Walk, item: (string, Value), stored: map<string, Value>)
    requires w.failed.None? && w.stored == stored
    requires item.0 in stored && stored[item.0] == item.1
    requires InsertAt(w.nested, Parts(item.0), item.1).Some?
    requires forall q | q in w.live ::
      q in stored && Unrelated(Parts(item.0), Parts(q)) && AtPath(Obj(w.nested), Parts(q)) == Some(stored[q])
    ensures WalkStep(w, item).stored == stored
  {
    var p := Parts(item.0);
    var n := InsertAt(w.nested, p, item.1).value;
    var w' := WalkStep(w, item);
    forall k | k in stored
      ensures w'.stored[k] == stored[k]
    {
      if k in w'.live {
        if k == item.0 {
          InsertReadsBack(w.nested, p, item.1);
        } else {
          InsertKeepsUnrelated(w.nested, p, item.1, Parts(k));
        }
      }
    }
  }

  /** With prefix-free keys no walk passes through a stored object, so the
      namespace is left as it was. */
  lemma {:induction false} PrefixFreeKeepsStore(flat: seq<(string, Value)>, stored: map<string, Value>)
    requires PrefixFree(flat)
    requires forall i | 0 <= i < |flat| :: flat[i].0 in stored && stored[flat[i].0] == flat[i].1
    ensures Walked(flat, stored).failed.None?
    ensures Walked(flat, stored).stored == stored
    decreases |flat|
  {
    PrefixFreeReadsBack(flat);
    WalkedFlattens(flat, stored);
    if |flat| > 0 {
      var init := flat[..|flat| - 1];
      var item := flat[|flat| - 1];
      assert PrefixFree(init) by {
        forall i, j | 0 <= i < |init| && 0 <= j < |init| && i != j
          ensures !(Parts(init[i].0) <= Parts(init[j].0))
        {
          assert init[i] == flat[i] && init[j] == flat[j];
        }
      }
      PrefixFreeKeepsStore(init, stored);
      LiveItemsMatchResult(init, stored);
      LiveAreObjectItems(init, stored);
      var w := Walked(init, stored);
      forall q | q in w.live
        ensures q in stored && Unrelated(Parts(item.0), Parts(q))
      {
        var j :| 0 <= j < |init| && init[j].0 == q && init[j].1.Obj?;
        assert flat[j] == init[j];
      }
      StepKeepsStore(w, item, stored);
    }
  }

  /** A walk over two items is two steps from the empty result. */
  lemma WalkedPair(x: (string, Value), y: (string, Value), stored: map<string, Value>)
    ensures Walked([x, y], stored) == WalkStep(WalkStep(Walk(map[], {}, stored, None), x), y)
  {
    var flat := [x, y];
    assert flat[..|flat| - 1] == [x] && [x][..|[x]| - 1] == [];
    assert Walked([], stored) == Walk(map[], {}, stored, None);
    assert Walked([x], stored) == WalkStep(Walked([], stored), x);
  }

  lemma ParentStep(a: string, f: map<string, Value>, stored: map<string, Value>)
    requires Parts(a) == [a] && a in stored && stored[a] == Obj(f)
    ensures WalkStep(Walk(map[], {}, stored, None), (a, Obj(f))) == Walk(map[a := Obj(f)], {a}, stored, None)
  {
    var n1 := map[a := Obj(f)];
    assert InsertAt(map[], [a], Obj(f)) == Some(n1);
    assert AtPath(Obj(n1), [a]) == Some(Obj(f));
    assert Refresh(stored, {a}, n1) == stored;
  }

  lemma ChildThroughParent(a: string, b: string, ab: string, f: map<string, Value>, v: Value, stored: map<string, Value>)
    requires Parts(a) == [a] && Parts(ab) == [a, b] && a in stored && ab in stored && stored[ab] == v
    ensures WalkStep(Walk(map[a := Obj(f)], {a}, stored, None), (ab, v))
      == Walk(map[a := Obj(f[b := v])], if v.Obj? then {a, ab} else {a}, stored[a := Obj(f[b := v])], None)
  {
    var n1 := map[a := Obj(f)];
    var n2 := map[a := Obj(f[b := v])];
    assert [a, b][1..] == [b];
    assert InsertAt(f, [b], v) == Some(f[b := v]);
    assert n1[a := Obj(f[b := v])] == n2;
    assert InsertAt(n1, [a, b], v) == Some(n2);
    assert AtPath(Obj(n2), [a]) == Some(Obj(f[b := v]));
    assert !([a, b] <= [a]);
    assert (set q | q in {a} && !([a, b] <= Parts(q))) == {a};
    assert AtPath(Obj(map[b := v]), [b]) == Some(v) by { assert [b][1..] == []; }
    assert AtPath(Obj(n2), [a, b]) == Some(v);
    assert Refresh(stored, if v.Obj? then {a, ab} else {a}, n2) == stored[a := Obj(f[b := v])];
  }

  lemma ChildStep(a: string, b: string, ab: string, v: Value, stored: map<string, Value>)
    requires Parts(ab) == [a, b] && ab in stored && stored[ab] == v
    ensures WalkStep(Walk(map[], {}, stored, None), (ab, v))
      == Walk(map[a := Obj(map[b := v])], if v.Obj? then {ab} else {}, stored, None)
  {
    var n1 := map[a := Obj(map[b := v])];
    assert [a, b][1..] == [b] && [b][1..] == [];
    assert InsertAt(map[], [b], v) == Some(map[b := v]);
    assert InsertAt(map[], [a, b], v) == Some(n1);
    assert AtPath(Obj(map[b := v]), [b]) == Some(v);
    assert AtPath(Obj(n1), [a, b]) == Some(v);
    assert Refresh(stored, if v.Obj? then {ab} else {}, n1) == stored;
  }

  lemma ParentOverChild(a: string, b: string, ab: string, f: map<string, Value>, v: Value, stored: map<string, Value>)
    requires Parts(a) == [a] && Parts(ab) == [a, b] && a in stored && stored[a] == Obj(f)
    ensures WalkStep(Walk(map[a := Obj(map[b := v])], if v.Obj? then {ab} else {}, stored, None), (a, Obj(f)))
      == Walk(map[a := Obj(f)], {a}, stored, None)
  {
    var n1 := map[a := Obj(map[b := v])];
    var n2 := map[a := Obj(f)];
    assert n1[a := Obj(f)] == n2;
    assert InsertAt(n1, [a], Obj(f)) == Some(n2);
    assert [a] <= [a, b];
    assert (set q | q in (if v.Obj? then {ab} else {}) && !([a] <= Parts(q))) == {};
    assert AtPath(Obj(n2), [a]) == Some(Obj(f));
    assert Refresh(stored, {a}, n2) == stored;
  }

  /** One namespace, two orders. An object stored under an undotted key a
      and a value under "a.b": walked a first, the stored object gains b;
      walked the other way, b is lost from the answer and the store is
      untouched. */
  lemma {:induction false} ParentFirstWritesBack(a: string, b: string, f: map<string, Value>, v: Value)
    requires '.' !in a && '.' !in b
    ensures var stored := map[a := Obj(f), a + "." + b := v];
      && Walked([(a, Obj(f)), (a + "." + b, v)], stored).stored == stored[a := Obj(f[b := v])]
      && Flattened([(a, Obj(f)), (a + "." + b, v)]) == Ok(map[a := Obj(f[b := v])])
  {
    var ab := a + "." + b;
    var stored := map[a := Obj(f), ab := v];
    Text.SplitWithoutSeparator(a, '.');
    TwoLevelKey(a, b);
    assert a != ab by { assert |ab| > |a|; }
    WalkedPair((a, Obj(f)), (ab, v), stored);
    ParentStep(a, f, stored);
    ChildThroughParent(a, b, ab, f, v, stored);
    WalkedFlattens([(a, Obj(f)), (ab, v)], stored);
  }

  lemma {:induction false} ChildFirstLosesIt(a: string, b: string, f: map<string, Value>, v: Value)
    requires '.' !in a && '.' !in b
    ensures var stored := map[a := Obj(f), a + "." + b := v];
      && Walked([(a + "." + b, v), (a, Obj(f))], stored).stored == stored
      && Flattened([(a + "." + b, v), (a, Obj(f))]) == Ok(map[a := Obj(f)])
  {
    var ab := a + "." + b;
    var stored := map[a := Obj(f), ab := v];
    Text.SplitWithoutSeparator(a, '.');
    TwoLevelKey(a, b);
    assert a != ab by { assert |ab| > |a|; }
    WalkedPair((ab, v), (a, Obj(f)), stored);
    ChildStep(a, b, ab, v, stored);
    ParentOverChild(a, b, ab, f, v, stored);
    WalkedFlattens([(ab, v), (a, Obj(f))], stored);
  }
}
