/** Reading and changing a JSON value by path. */
module JsonPath {
  import opened Text
  import opened DotenvSyntax
  import opened JsObject

  /** The fields of an object are in the order in which it lists them. `Option<Json>` adds `undefined`. */
  datatype Json =
    | Null
    | Bool(b: bool)
    | Number(n: real)
    | String(s: string)
    | Arr(items: seq<Json>)
    | Obj(fields: seq<Pair<Json>>)

  datatype Key = Name(name: string) | Index(index: nat)

  type Path = seq<Key>

  /** An item of a container, or `undefined`. */
  function Item(doc: Option<Json>, k: Key): (r: Option<Json>)
  {
    match doc
    case Some(Arr(items)) => if k.Index? && k.index < |items| then Some(items[k.index]) else None
    case Some(Obj(fields)) => if k.Name? then Find(fields, k.name) else None
    case _ => None
  }

  function Get(doc: Option<Json>, path: Path): Option<Json>
    decreases |path|
  {
    if path == [] then doc else Get(Item(doc, path[0]), path[1..])
  }

  method GetPath(doc: Option<Json>, path: Path) returns (cur: Option<Json>)
    ensures cur == Get(doc, path)
  {
    cur := doc;
    assert path[0..] == path;
    for i := 0 to |path|
      invariant Get(cur, path[i..]) == Get(doc, path)
    {
      assert path[i..][1..] == path[i + 1..];
      if !(cur.Some? && (cur.value.Arr? || cur.value.Obj?)) {
        NothingUnder(path[i + 1..]);
        return None;
      }
      cur := Item(cur, path[i]);
    }
  }

  lemma {:induction false} NothingUnder(path: Path)
    ensures Get(None, path) == None
    decreases |path|
  {
    if path != [] { NothingUnder(path[1..]); }
  }

  // ---- changing --------------------------------------------------------------------------------------------------

  /** The container that is changed: a copy of `doc`, or a new one for the kind of key. */
  function Base(doc: Option<Json>, k: Key): (r: Json)
    ensures r.Arr? || r.Obj?
  {
    if doc.Some? && (doc.value.Arr? || doc.value.Obj?) then doc.value else if k.Index? then Arr([]) else Obj([])
  }

  /** The key goes with the container: a name with an object, an index with an array, up to its end. */
  predicate Goes(base: Json, k: Key) {
    if base.Arr? then k.Index? && k.index <= |base.items| else base.Obj? && k.Name? && k.name != PROTOTYPE
  }

  function Store(base: Json, k: Key, v: Json): (r: Json)
    requires Goes(base, k)
    ensures Goes(r, k)
  {
    if base.Obj? then Obj(Assign(base.fields, k.name, v))
    else if k.index < |base.items| then Arr(base.items[k.index := v])
    else Arr(base.items + [v])
  }

  function Delete(base: Json, k: Key): Json
    requires Goes(base, k)
  {
    if base.Obj? then Obj(Drop(base.fields, k.name))
    else if k.index < |base.items| then Arr(base.items[..k.index] + base.items[k.index + 1..])
    else base
  }

  /** Every key on the way goes with its container. */
  predicate Fits(doc: Option<Json>, path: Path)
    decreases |path|
  {
    path == [] || (Goes(Base(doc, path[0]), path[0]) && Fits(Item(doc, path[0]), path[1..]))
  }

  /** A copy of `doc` with `path` at `value`; `undefined` deletes. */
  function Set(doc: Option<Json>, path: Path, value: Option<Json>): (r: Option<Json>)
    requires Fits(doc, path)
    ensures path != [] ==> r.Some?
    decreases |path|
  {
    if path == [] then value
    else
      var k, base := path[0], Base(doc, path[0]);
      if |path| == 1 && value == None then Some(Delete(base, k))
      else if |path| == 1 then Some(Store(base, k, value.value))
      else Some(Store(base, k, Set(Item(doc, k), path[1..], value).value))
  }

  // ---- one container ---------------------------------------------------------------------------------------------

  /** The item stored is there, and the others are as they were. */
  lemma ItemStored(base: Json, k: Key, v: Json, other: Key)
    requires Goes(base, k)
    ensures Item(Some(Store(base, k, v)), k) == Some(v)
    ensures other != k ==> Item(Some(Store(base, k, v)), other) == Item(Some(base), other)
  {
    if base.Obj? { FindAssigned(base.fields, k.name, v, if other.Name? then other.name else k.name); }
  }

  lemma StoreTwice(base: Json, k: Key, v: Json, w: Json)
    requires Goes(base, k)
    ensures Store(Store(base, k, v), k, w) == Store(base, k, w)
  {
    if base.Obj? { AssignTwice(base.fields, k.name, v, w); }
  }

  lemma BaseItem(doc: Option<Json>, k: Key, other: Key)
    ensures Item(Some(Base(doc, k)), other) == Item(doc, other)
  {
  }

  // ---- the laws --------------------------------------------------------------------------------------------------

  /** What a set with more than one key, or of a value, stores at its first key. */
  function Below(doc: Option<Json>, path: Path, v: Json): (r: Json)
    requires Fits(doc, path) && path != []
  {
    if |path| == 1 then v else Set(Item(doc, path[0]), path[1..], Some(v)).value
  }

  lemma SetStores(doc: Option<Json>, path: Path, v: Json)
    requires Fits(doc, path) && path != []
    ensures Set(doc, path, Some(v)) == Some(Store(Base(doc, path[0]), path[0], Below(doc, path, v)))
    ensures Set(Item(doc, path[0]), path[1..], Some(v)) == Some(Below(doc, path, v))
    ensures Item(Set(doc, path, Some(v)), path[0]) == Some(Below(doc, path, v))
  {
    ItemStored(Base(doc, path[0]), path[0], Below(doc, path, v), path[0]);
  }

  /** Set, then get: the value. */
  lemma {:induction false} SetGets(doc: Option<Json>, path: Path, v: Json)
    requires Fits(doc, path)
    ensures Get(Set(doc, path, Some(v)), path) == Some(v)
    decreases |path|
  {
    if path != [] {
      SetStores(doc, path, v);
      SetGets(Item(doc, path[0]), path[1..], v);
    }
  }

  /** The last set wins. */
  lemma {:induction false} SetTwice(doc: Option<Json>, path: Path, v: Json, w: Json)
    requires Fits(doc, path)
    ensures Fits(Set(doc, path, Some(v)), path)
    ensures Set(Set(doc, path, Some(v)), path, Some(w)) == Set(doc, path, Some(w))
    decreases |path|
  {
    if path != [] {
      var k, base := path[0], Base(doc, path[0]);
      SetStores(doc, path, v);
      SetTwice(Item(doc, k), path[1..], v, w);
      var changed := Set(doc, path, Some(v));
      assert Base(changed, k) == changed.value;
      SetStores(changed, path, w);
      SetStores(doc, path, w);
      StoreTwice(base, k, Below(doc, path, v), Below(doc, path, w));
    }
  }

  /** A missing container is made for the kind of key: an object for a name, an array for an index, which has to be its
      first. */
  predicate MadeFor(path: Path) {
    forall k | k in path :: if k.Name? then k.name != PROTOTYPE else k.index == 0
  }

  /** The containers that hold just `v` at the path. */
  function Nested(path: Path, v: Json): Json
    decreases |path|
  {
    if path == [] then v
    else if path[0].Name? then Obj([Pair(path[0].name, Nested(path[1..], v))])
    else Arr([Nested(path[1..], v)])
  }

  lemma MadeTail(path: Path)
    requires path != []
    ensures MadeFor(path) <==> (if path[0].Name? then path[0].name != PROTOTYPE else path[0].index == 0) &&
                               MadeFor(path[1..])
  {
    assert path == [path[0]] + path[1..];
  }

  /** Where there is nothing, a set makes exactly the containers of the path. */
  lemma {:induction false} MissingIsMade(path: Path, v: Json)
    ensures Fits(None, path) <==> MadeFor(path)
    ensures MadeFor(path) ==> Set(None, path, Some(v)) == Some(Nested(path, v))
    decreases |path|
  {
    if path != [] {
      MadeTail(path);
      MissingIsMade(path[1..], v);
      assert Item(None, path[0]) == None;
      if MadeFor(path) {
        SetStores(None, path, v);
        StoreNew(path[0], Nested(path[1..], v));
      }
    }
  }

  lemma StoreNew(k: Key, v: Json)
    requires Goes(Base(None, k), k)
    ensures Store(Base(None, k), k, v) == if k.Name? then Obj([Pair(k.name, v)]) else Arr([v])
  {
    assert [] + [v] == [v];
  }

  /** The paths part at some key. */
  predicate Diverge(p: Path, q: Path)
    decreases |p|
  {
    p != [] && q != [] && (p[0] != q[0] || Diverge(p[1..], q[1..]))
  }

  /** A set leaves reads elsewhere as they were. */
  lemma {:induction false} SetElsewhere(doc: Option<Json>, p: Path, v: Json, q: Path)
    requires Fits(doc, p) && Diverge(p, q)
    ensures Get(Set(doc, p, Some(v)), q) == Get(doc, q)
    decreases |p|
  {
    SetStores(doc, p, v);
    if p[0] == q[0] {
      SetElsewhere(Item(doc, p[0]), p[1..], v, q[1..]);
    } else {
      ItemStored(Base(doc, p[0]), p[0], Below(doc, p, v), q[0]);
      BaseItem(doc, p[0], q[0]);
    }
  }

  predicate SortsItself(k: Key) { k.Index? || ArrayIndex(k.name) }

  /** Where the paths part, one of the two keys is there, or one is sorted by itself: an object keeps the order in which
      two other new keys were set. */
  predicate OrderFree(doc: Option<Json>, p: Path, q: Path)
    requires Diverge(p, q)
    decreases |p|
  {
    if p[0] == q[0] then OrderFree(Item(doc, p[0]), p[1..], q[1..])
    else SortsItself(p[0]) || SortsItself(q[0]) || Item(doc, p[0]).Some? || Item(doc, q[0]).Some?
  }

  /** Sets at paths that part commute exactly if the order of new keys does not show. */
  lemma {:induction false} SetsCommute(doc: Option<Json>, p: Path, v: Json, q: Path, w: Json)
    requires Diverge(p, q) && Fits(doc, p) && Fits(doc, q)
    requires Fits(Set(doc, p, Some(v)), q) && Fits(Set(doc, q, Some(w)), p)
    ensures Set(Set(doc, p, Some(v)), q, Some(w)) == Set(Set(doc, q, Some(w)), p, Some(v)) <==> OrderFree(doc, p, q)
    decreases |p|
  {
    var base := Base(doc, p[0]);
    var x, y := Below(doc, p, v), Below(doc, q, w);
    SetStores(doc, p, v);
    SetStores(doc, q, w);
    var first, second := Set(doc, p, Some(v)), Set(doc, q, Some(w));
    SetStores(first, q, w);
    SetStores(second, p, v);
    if p[0] == q[0] {
      var k, item := p[0], Item(doc, p[0]);
      SetsCommute(item, p[1..], v, q[1..], w);
      StoreTwice(base, k, x, Below(first, q, w));
      StoreTwice(base, k, y, Below(second, p, v));
      ItemStored(base, k, Below(first, q, w), k);
      ItemStored(base, k, Below(second, p, v), k);
    } else {
      ItemStored(base, p[0], x, q[0]);
      ItemStored(Base(doc, q[0]), q[0], y, p[0]);
      BaseItem(doc, p[0], q[0]);
      BaseItem(doc, q[0], p[0]);
      assert Below(first, q, w) == y && Below(second, p, v) == x;
      StoresCommute(doc, p[0], x, q[0], y);
    }
  }

  lemma StoresCommute(doc: Option<Json>, a: Key, x: Json, b: Key, y: Json)
    requires a != b && Goes(Base(doc, a), a) && Goes(Base(doc, b), b)
    requires Goes(Store(Base(doc, a), a, x), b) && Goes(Store(Base(doc, b), b, y), a)
    ensures Store(Store(Base(doc, a), a, x), b, y) == Store(Store(Base(doc, b), b, y), a, x) <==>
            SortsItself(a) || SortsItself(b) || Item(doc, a).Some? || Item(doc, b).Some?
  {
    var base := Base(doc, a);
    assert base == Base(doc, b);
    if base.Obj? { AssignsCommute(base.fields, a.name, x, b.name, y); }
  }

  lemma SetOne(fields: seq<Pair<Json>>, name: string, v: Json)
    requires name != PROTOTYPE
    ensures var doc := Some(Obj(fields));
      Fits(doc, [Name(name)]) && Set(doc, [Name(name)], Some(v)) == Some(Obj(Assign(fields, name, v)))
  {
    var doc := Some(Obj(fields));
    assert Fits(Item(doc, Name(name)), []) && [Name(name)][1..] == [];
  }

  lemma NoIndexShows(a: string, v: Json, b: string, w: Json)
    requires a != b && !ArrayIndex(a) && !ArrayIndex(b)
    ensures Assign(Assign([], a, v), b, w) != Assign(Assign([], b, w), a, v)
  {
    AssignsCommute([], a, v, b, w);
  }

  lemma LettersAreNames()
    ensures "a" != "b" && !ArrayIndex("a") && !ArrayIndex("b") && "a" != PROTOTYPE && "b" != PROTOTYPE
  {
    assert "a"[0] == 'a' && "b"[0] == 'b' && 'a' in "a" && 'b' in "b" && |PROTOTYPE| == 9;
  }

  /** The failing case: two new keys set on an empty object. */
  lemma NewKeysShow(v: Json, w: Json)
    ensures var doc, a, b := Some(Obj([])), [Name("a")], [Name("b")];
      && Fits(doc, a) && Fits(doc, b) && Fits(Set(doc, b, Some(w)), a) && Fits(Set(doc, a, Some(v)), b)
      && Set(Set(doc, b, Some(w)), a, Some(v)) != Set(Set(doc, a, Some(v)), b, Some(w))
  {
    LettersAreNames();
    SetOne([], "a", v);
    SetOne([], "b", w);
    SetOne(Assign([], "a", v), "b", w);
    SetOne(Assign([], "b", w), "a", v);
    NoIndexShows("a", v, "b", w);
  }

  /** Deleting an index closes the gap and keeps the order; deleting a key leaves it undefined and the others as they
      were. */
  lemma {:induction false} DeleteGets(doc: Option<Json>, path: Path, k: Key)
    requires Get(doc, path).Some? && Fits(doc, path + [k])
    ensures Get(doc, path).value.Arr? && k.Index? && k.index < |Get(doc, path).value.items| ==>
      var items := Get(doc, path).value.items;
      Get(Set(doc, path + [k], None), path) == Some(Arr(items[..k.index] + items[k.index + 1..]))
    ensures Get(doc, path).value.Obj? && k.Name? ==>
      var r := Get(Set(doc, path + [k], None), path);
      Item(r, k) == None && forall other: Key | other != k :: Item(r, other) == Item(Get(doc, path), other)
    decreases |path|
  {
    if path == [] {
      assert path + [k] == [k];
      if doc.value.Obj? && k.Name? {
        forall other: Key | other != k ensures Item(Set(doc, [k], None), other) == Item(doc, other) {
          if other.Name? { FindDropped(doc.value.fields, k.name, other.name); }
        }
        FindDropped(doc.value.fields, k.name, k.name);
      }
    } else {
      var p := path + [k];
      assert p[1..] == path[1..] + [k] && p[0] == path[0];
      DeleteGets(Item(doc, path[0]), path[1..], k);
      ItemStored(Base(doc, path[0]), path[0], Set(Item(doc, path[0]), p[1..], None).value, path[0]);
    }
  }
}
