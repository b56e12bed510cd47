/** The keys of a JavaScript object in the order in which it lists them (section 10.1.11.1 of ECMA-262): array indices
    first and ascending, then the other names as they were added. */
module JsObject {
  import opened Text
  import opened DotenvSyntax

  // ---- names -----------------------------------------------------------------------------------------------------

  /** For numerals of one length: the smaller number. */
  predicate Lower(a: string, b: string)
    decreases |a|
  {
    a != [] && b != [] && (a[0] < b[0] || (a[0] == b[0] && Lower(a[1..], b[1..])))
  }

  /** For numerals without leading zeros: the smaller number. */
  predicate Smaller(a: string, b: string) { |a| < |b| || (|a| == |b| && Lower(a, b)) }

  const NO_INDEX := "4294967295"

  /** The numerals from 0 to 2^32 - 2, written without leading zeros. */
  predicate ArrayIndex(s: string) {
    s != [] && (forall c | c in s :: '0' <= c <= '9') && (|s| > 1 ==> s[0] != '0') && Smaller(s, NO_INDEX)
  }

  /** An object lists `a` before `b`, whenever they were added. */
  predicate Before(a: string, b: string) { ArrayIndex(a) && (ArrayIndex(b) ==> Smaller(a, b)) }

  lemma {:induction false} LowerIsAnOrder(a: string, b: string, c: string)
    ensures !(Lower(a, b) && Lower(b, a))
    ensures Lower(a, b) && Lower(b, c) ==> Lower(a, c)
    ensures |a| == |b| ==> a == b || Lower(a, b) || Lower(b, a)
    decreases |a|
  {
    if a != [] && b != [] {
      LowerIsAnOrder(a[1..], b[1..], if c != [] then c[1..] else []);
      if a[0] == b[0] && a[1..] == b[1..] { assert a == [a[0]] + a[1..] == [b[0]] + b[1..] == b; }
    }
  }

  /** A strict order, in which an index is comparable to every other name. */
  lemma BeforeIsAnOrder(a: string, b: string, c: string)
    ensures !(Before(a, b) && Before(b, a))
    ensures Before(a, b) && Before(b, c) ==> Before(a, c)
    ensures a != b ==> (Before(a, b) || Before(b, a) <==> ArrayIndex(a) || ArrayIndex(b))
    ensures Before(a, b) && !Before(c, b) ==> Before(a, c)
  {
    LowerIsAnOrder(a, b, c);
    LowerIsAnOrder(b, c, a);
    LowerIsAnOrder(c, b, a);
  }

  /** Assigned, it replaces the object's prototype. */
  const PROTOTYPE := "__proto__"

  // ---- objects ---------------------------------------------------------------------------------------------------

  predicate HasKey<V>(fields: seq<Pair<V>>, key: string) { Find(fields, key).Some? }

  /** A new entry takes its place. */
  function Place<V>(fields: seq<Pair<V>>, p: Pair<V>): seq<Pair<V>>
    decreases |fields|
  {
    if fields == [] || Before(p.key, fields[0].key) then [p] + fields else [fields[0]] + Place(fields[1..], p)
  }

  /** `fields[key] = value` */
  function Assign<V>(fields: seq<Pair<V>>, key: string, value: V): seq<Pair<V>> {
    if HasKey(fields, key) then Put(fields, key, value) else Place(fields, Pair(key, value))
  }

  lemma PlaceHead<V>(f: Pair<V>, rest: seq<Pair<V>>, p: Pair<V>)
    ensures Place([f] + rest, p) == if Before(p.key, f.key) then [p, f] + rest else [f] + Place(rest, p)
  {
    assert ([f] + rest)[1..] == rest;
    assert [p] + ([f] + rest) == [p, f] + rest;
  }

  lemma PutHead<V>(f: Pair<V>, rest: seq<Pair<V>>, key: string, v: V)
    ensures Put([f] + rest, key, v) == if f.key == key then [Pair(key, v)] + rest else [f] + Put(rest, key, v)
  {
    assert ([f] + rest)[1..] == rest;
  }

  lemma FindHead<V>(f: Pair<V>, rest: seq<Pair<V>>, key: string)
    ensures Find([f] + rest, key) == if f.key == key then Some(f.value) else Find(rest, key)
  {
    assert ([f] + rest)[1..] == rest;
  }

  lemma {:induction false} FindPlaced<V>(fields: seq<Pair<V>>, p: Pair<V>, key: string)
    requires !HasKey(fields, p.key)
    ensures Find(Place(fields, p), key) == if key == p.key then Some(p.value) else Find(fields, key)
    decreases |fields|
  {
    FindHead(p, fields, key);
    if fields != [] && !Before(p.key, fields[0].key) {
      FindPlaced(fields[1..], p, key);
      FindHead(fields[0], Place(fields[1..], p), key);
    }
  }

  /** An assigned value is there, and the others are as they were. */
  lemma FindAssigned<V>(fields: seq<Pair<V>>, key: string, v: V, other: string)
    ensures Find(Assign(fields, key, v), key) == Some(v)
    ensures other != key ==> Find(Assign(fields, key, v), other) == Find(fields, other)
  {
    FindPut(fields, key, v, other);
    if !HasKey(fields, key) {
      FindPlaced(fields, Pair(key, v), key);
      FindPlaced(fields, Pair(key, v), other);
    }
  }

  lemma {:induction false} PutPlaced<V>(fields: seq<Pair<V>>, key: string, v: V, w: V)
    requires !HasKey(fields, key)
    ensures Put(Place(fields, Pair(key, v)), key, w) == Place(fields, Pair(key, w))
    decreases |fields|
  {
    PutHead(Pair(key, v), fields, key, w);
    if fields != [] && !Before(key, fields[0].key) {
      PutPlaced(fields[1..], key, v, w);
      PutHead(fields[0], Place(fields[1..], Pair(key, v)), key, w);
    }
  }

  lemma AssignTwice<V>(fields: seq<Pair<V>>, key: string, v: V, w: V)
    ensures Assign(Assign(fields, key, v), key, w) == Assign(fields, key, w)
  {
    FindAssigned(fields, key, v, key);
    if HasKey(fields, key) { PutPut(fields, key, v, w); } else { PutPlaced(fields, key, v, w); }
  }

  // ---- when the order of assignments shows -----------------------------------------------------------------------

  /** Two new entries. */
  lemma {:induction false} PlacesCommute<V>(fields: seq<Pair<V>>, p: Pair<V>, q: Pair<V>)
    requires p.key != q.key
    ensures Place(Place(fields, p), q) == Place(Place(fields, q), p) <==> ArrayIndex(p.key) || ArrayIndex(q.key)
    decreases |fields|
  {
    BeforeIsAnOrder(p.key, q.key, p.key);
    PlaceHead(p, fields, q);
    PlaceHead(q, fields, p);
    if fields == [] {
      assert [p] + fields == [p] && [q] + fields == [q];
      assert [p, q][0] != [q, p][0];
    } else {
      var f, rest := fields[0], fields[1..];
      BeforeIsAnOrder(p.key, q.key, f.key);
      BeforeIsAnOrder(q.key, p.key, f.key);
      PlaceHead(f, Place(rest, p), q);
      PlaceHead(f, Place(rest, q), p);
      assert fields == [f] + rest;
      PlacesCommute(rest, p, q);
      TailsEqual(f, Place(Place(rest, p), q), Place(Place(rest, q), p));
    }
  }

  lemma TailsEqual<T>(f: T, a: seq<T>, b: seq<T>)
    ensures [f] + a == [f] + b <==> a == b
  {
    assert ([f] + a)[1..] == a && ([f] + b)[1..] == b;
  }

  /** A new entry and an old one. */
  lemma {:induction false} PlaceAndPut<V>(fields: seq<Pair<V>>, p: Pair<V>, key: string, v: V)
    requires p.key != key && HasKey(fields, key)
    ensures Place(Put(fields, key, v), p) == Put(Place(fields, p), key, v)
    decreases |fields|
  {
    var f, rest := fields[0], fields[1..];
    PutHead(p, fields, key, v);
    PlaceHead(Pair(key, v), rest, p);
    PlaceHead(f, Put(rest, key, v), p);
    PutHead(f, Place(rest, p), key, v);
    if f.key != key { PlaceAndPut(rest, p, key, v); }
  }

  /** Two old entries. */
  lemma {:induction false} PutsCommute<V>(fields: seq<Pair<V>>, a: string, v: V, b: string, w: V)
    requires a != b && HasKey(fields, a) && HasKey(fields, b)
    ensures Put(Put(fields, a, v), b, w) == Put(Put(fields, b, w), a, v)
    decreases |fields|
  {
    var f, rest := fields[0], fields[1..];
    PutHead(Pair(a, v), rest, b, w);
    PutHead(Pair(b, w), rest, a, v);
    PutHead(f, Put(rest, a, v), b, w);
    PutHead(f, Put(rest, b, w), a, v);
    if f.key != a && f.key != b { PutsCommute(rest, a, v, b, w); }
  }

  /** Two keys assigned in either order give the same object, listed in the same order, exactly if one of them was
      there or is an array index. */
  lemma AssignsCommute<V>(fields: seq<Pair<V>>, a: string, v: V, b: string, w: V)
    requires a != b
    ensures Assign(Assign(fields, a, v), b, w) == Assign(Assign(fields, b, w), a, v) <==>
            HasKey(fields, a) || HasKey(fields, b) || ArrayIndex(a) || ArrayIndex(b)
  {
    FindAssigned(fields, a, v, b);
    FindAssigned(fields, b, w, a);
    if HasKey(fields, a) && HasKey(fields, b) {
      PutsCommute(fields, a, v, b, w);
    } else if HasKey(fields, a) {
      PlaceAndPut(fields, Pair(b, w), a, v);
    } else if HasKey(fields, b) {
      PlaceAndPut(fields, Pair(a, v), b, w);
    } else {
      PlacesCommute(fields, Pair(a, v), Pair(b, w));
    }
  }

  // ---- lists in order --------------------------------------------------------------------------------------------

  /** No key comes before an earlier one. */
  predicate Ordered<V>(fields: seq<Pair<V>>) {
    forall i, j | 0 <= i < j < |fields| :: !Before(fields[j].key, fields[i].key)
  }

  lemma PlaceWithin<V>(fields: seq<Pair<V>>, p: Pair<V>)
    ensures forall e | e in Place(fields, p) :: e == p || e in fields
    decreases |fields|
  {
    if fields != [] && !Before(p.key, fields[0].key) {
      PlaceWithin(fields[1..], p);
    }
  }

  /** An entry that goes before the first one goes before all. */
  lemma BeforeAll<V>(fields: seq<Pair<V>>, key: string)
    requires Ordered(fields) && fields != [] && Before(key, fields[0].key)
    ensures forall e | e in fields :: Before(key, e.key) && !Before(e.key, key)
  {
    forall i | 0 <= i < |fields| ensures Before(key, fields[i].key) && !Before(fields[i].key, key) {
      BeforeIsAnOrder(key, fields[0].key, fields[i].key);
      BeforeIsAnOrder(key, fields[i].key, fields[i].key);
      BeforeIsAnOrder(fields[0].key, fields[0].key, fields[0].key);
    }
  }

  lemma ConsOrdered<V>(f: Pair<V>, rest: seq<Pair<V>>)
    requires Ordered(rest) && forall e | e in rest :: !Before(e.key, f.key)
    ensures Ordered([f] + rest)
  {
    var s := [f] + rest;
    forall i, j | 0 <= i < j < |s| ensures !Before(s[j].key, s[i].key) {
      assert s[j] == rest[j - 1] && s[j] in rest;
      if i > 0 { assert s[i] == rest[i - 1]; }
    }
  }

  lemma TailOrdered<V>(fields: seq<Pair<V>>)
    requires Ordered(fields) && fields != []
    ensures Ordered(fields[1..]) && forall e | e in fields[1..] :: !Before(e.key, fields[0].key)
  {
  }

  lemma {:induction false} PlaceOrdered<V>(fields: seq<Pair<V>>, p: Pair<V>)
    requires Ordered(fields)
    ensures Ordered(Place(fields, p))
    decreases |fields|
  {
    if fields == [] {
    } else if Before(p.key, fields[0].key) {
      BeforeAll(fields, p.key);
      ConsOrdered(p, fields);
    } else {
      TailOrdered(fields);
      PlaceOrdered(fields[1..], p);
      PlaceWithin(fields[1..], p);
      ConsOrdered(fields[0], Place(fields[1..], p));
    }
  }

  predicate SameKeys<V>(a: seq<Pair<V>>, b: seq<Pair<V>>) {
    |a| == |b| && forall i | 0 <= i < |a| :: a[i].key == b[i].key
  }

  lemma SameKeysOrdered<V>(a: seq<Pair<V>>, b: seq<Pair<V>>)
    requires Ordered(a) && SameKeys(a, b)
    ensures Ordered(b)
  {
  }

  lemma {:induction false} PutKeepsKeys<V>(fields: seq<Pair<V>>, key: string, v: V)
    requires HasKey(fields, key)
    ensures SameKeys(fields, Put(fields, key, v))
    decreases |fields|
  {
    var f, rest := fields[0], fields[1..];
    if f.key != key {
      PutKeepsKeys(rest, key, v);
      var r := Put(rest, key, v);
      forall i | 0 <= i < |fields| ensures fields[i].key == ([f] + r)[i].key {
        if i > 0 { assert rest[i - 1].key == r[i - 1].key; }
      }
    }
  }

  lemma AssignOrdered<V>(fields: seq<Pair<V>>, key: string, v: V)
    requires Ordered(fields)
    ensures Ordered(Assign(fields, key, v))
  {
    if HasKey(fields, key) {
      PutKeepsKeys(fields, key, v);
      SameKeysOrdered(fields, Put(fields, key, v));
    } else {
      PlaceOrdered(fields, Pair(key, v));
    }
  }

  /** What an object lists whose keys were added as in `pairs`. */
  function Listed<V>(pairs: seq<Pair<V>>): seq<Pair<V>>
    decreases |pairs|
  {
    if pairs == [] then [] else var n := |pairs| - 1; Place(Listed(pairs[..n]), pairs[n])
  }

  lemma {:induction false} PlaceLast<V>(fields: seq<Pair<V>>, p: Pair<V>)
    requires forall e | e in fields :: !Before(p.key, e.key)
    ensures Place(fields, p) == fields + [p]
    decreases |fields|
  {
    if fields != [] {
      PlaceLast(fields[1..], p);
      assert fields + [p] == [fields[0]] + (fields[1..] + [p]);
    } else {
      assert [p] + fields == fields + [p];
    }
  }

  /** A list is as an object lists it exactly if it is in order. */
  lemma {:induction false} ListedIsOrdered<V>(pairs: seq<Pair<V>>)
    ensures Ordered(Listed(pairs))
    ensures Listed(pairs) == pairs <==> Ordered(pairs)
    decreases |pairs|
  {
    if pairs != [] {
      var n := |pairs| - 1;
      ListedIsOrdered(pairs[..n]);
      PlaceOrdered(Listed(pairs[..n]), pairs[n]);
      if Ordered(pairs) {
        assert Ordered(pairs[..n]);
        PlaceLast(pairs[..n], pairs[n]);
      }
    }
  }

  lemma {:induction false} FindListed<V>(pairs: seq<Pair<V>>, key: string)
    requires DistinctKeys(pairs)
    ensures Find(Listed(pairs), key) == Find(pairs, key)
    decreases |pairs|
  {
    if pairs != [] {
      var n := |pairs| - 1;
      assert pairs == pairs[..n] + [pairs[n]];
      FindListed(pairs[..n], key);
      FindListed(pairs[..n], pairs[n].key);
      FindNone(pairs[..n], pairs[n].key);
      FindSnoc(pairs[..n], pairs[n], key);
      FindPlaced(Listed(pairs[..n]), pairs[n], key);
    }
  }

  lemma {:induction false} PutSnoc<V>(pairs: seq<Pair<V>>, p: Pair<V>, key: string, v: V)
    ensures Put(pairs + [p], key, v) ==
      if HasKey(pairs, key) then Put(pairs, key, v) + [p]
      else if p.key == key then pairs + [Pair(key, v)]
      else pairs + [p] + [Pair(key, v)]
    decreases |pairs|
  {
    if pairs == [] {
      assert pairs + [p] == [p] && [p][1..] == [];
    } else {
      var rest := pairs[1..];
      PutSnoc(rest, p, key, v);
      assert pairs == [pairs[0]] + rest && pairs + [p] == [pairs[0]] + (rest + [p]);
      PutHead(pairs[0], rest + [p], key, v);
      PutHead(pairs[0], rest, key, v);
    }
  }

  lemma {:induction false} PutNew<V>(pairs: seq<Pair<V>>, key: string, v: V)
    requires !HasKey(pairs, key)
    ensures Put(pairs, key, v) == pairs + [Pair(key, v)]
    decreases |pairs|
  {
    if pairs != [] { PutNew(pairs[1..], key, v); }
  }

  /** Assigning in a listed object is putting in the list and then listing it. */
  lemma {:induction false} AssignListed<V>(pairs: seq<Pair<V>>, key: string, v: V)
    requires DistinctKeys(pairs)
    ensures Assign(Listed(pairs), key, v) == Listed(Put(pairs, key, v))
    decreases |pairs|
  {
    FindListed(pairs, key);
    if !HasKey(pairs, key) {
      PutNew(pairs, key, v);
      ListedSnoc(pairs, Pair(key, v));
    } else {
      var n := |pairs| - 1;
      var front, p := pairs[..n], pairs[n];
      assert pairs == front + [p];
      FindSnoc(front, p, key);
      PutSnoc(front, p, key, v);
      FindListed(front, key);
      if HasKey(front, key) {
        AssignListed(front, key, v);
        assert p.key != key by { KeyAt(front, key); }
        ListedSnoc(Put(front, key, v), p);
        PlaceAndPut(Listed(front), p, key, v);
      } else {
        ListedSnoc(front, Pair(key, v));
        PutPlaced(Listed(front), key, p.value, v);
      }
    }
  }

  lemma ListedSnoc<V>(pairs: seq<Pair<V>>, p: Pair<V>)
    ensures Listed(pairs + [p]) == Place(Listed(pairs), p)
  {
    assert (pairs + [p])[..|pairs|] == pairs;
  }

  lemma {:induction false} KeyAt<V>(pairs: seq<Pair<V>>, key: string)
    requires HasKey(pairs, key)
    ensures exists i :: 0 <= i < |pairs| && pairs[i].key == key
    decreases |pairs|
  {
    if pairs[0].key != key {
      KeyAt(pairs[1..], key);
      var i :| 0 <= i < |pairs| - 1 && pairs[1..][i].key == key;
      assert pairs[i + 1].key == key;
    }
  }

  lemma {:induction false} DistinctPut<V>(pairs: seq<Pair<V>>, key: string, v: V)
    requires DistinctKeys(pairs)
    ensures DistinctKeys(Put(pairs, key, v))
  {
    if HasKey(pairs, key) {
      KeyAt(pairs, key);
      var i :| 0 <= i < |pairs| && pairs[i].key == key;
      PutAt(pairs, key, v, i);
    } else {
      PutNew(pairs, key, v);
      forall i | 0 <= i < |pairs| ensures pairs[i].key != key { FindAt(pairs, i); }
    }
  }

  // ---- deleting a key --------------------------------------------------------------------------------------------

  lemma DropHead<V>(f: Pair<V>, rest: seq<Pair<V>>, key: string)
    ensures Drop([f] + rest, key) == if f.key == key then Drop(rest, key) else [f] + Drop(rest, key)
  {
    assert ([f] + rest)[1..] == rest;
  }

  lemma {:induction false} DropWithin<V>(fields: seq<Pair<V>>, key: string)
    ensures forall e | e in Drop(fields, key) :: e in fields
    decreases |fields|
  {
    if fields != [] { DropWithin(fields[1..], key); }
  }

  lemma {:induction false} DropOrdered<V>(fields: seq<Pair<V>>, key: string)
    requires Ordered(fields)
    ensures Ordered(Drop(fields, key))
    decreases |fields|
  {
    if fields != [] {
      TailOrdered(fields);
      DropOrdered(fields[1..], key);
      DropWithin(fields[1..], key);
      if fields[0].key != key { ConsOrdered(fields[0], Drop(fields[1..], key)); }
    }
  }

  lemma {:induction false} DropPlaced<V>(fields: seq<Pair<V>>, p: Pair<V>, key: string)
    requires Ordered(fields)
    ensures Drop(Place(fields, p), key) == if p.key == key then Drop(fields, key) else Place(Drop(fields, key), p)
    decreases |fields|
  {
    DropHead(p, fields, key);
    if fields == [] {
      assert [p] + fields == [p];
    } else if Before(p.key, fields[0].key) {
      BeforeAll(fields, p.key);
      DropWithin(fields, key);
      if Drop(fields, key) != [] { assert Drop(fields, key)[0] in fields; }
    } else {
      var f, rest := fields[0], fields[1..];
      TailOrdered(fields);
      DropPlaced(rest, p, key);
      DropHead(f, Place(rest, p), key);
      PlaceHead(f, Drop(rest, key), p);
    }
  }

  lemma {:induction false} DropPut<V>(fields: seq<Pair<V>>, key: string, other: string, v: V)
    requires HasKey(fields, other)
    ensures Drop(Put(fields, other, v), key) ==
            if other == key then Drop(fields, key) else Put(Drop(fields, key), other, v)
    ensures other != key ==> HasKey(Drop(fields, key), other)
    decreases |fields|
  {
    var f, rest := fields[0], fields[1..];
    DropHead(Pair(other, v), rest, key);
    DropHead(f, Put(rest, other, v), key);
    PutHead(f, Drop(rest, key), other, v);
    FindHead(f, Drop(rest, key), other);
    if f.key != other { DropPut(rest, key, other, v); }
  }

  lemma {:induction false} FindDropped<V>(fields: seq<Pair<V>>, key: string, other: string)
    ensures Find(Drop(fields, key), other) == if other == key then None else Find(fields, other)
    decreases |fields|
  {
    if fields != [] {
      FindDropped(fields[1..], key, other);
      FindHead(fields[0], Drop(fields[1..], key), other);
    }
  }

  /** A key that was assigned and is deleted leaves the others as if it had not been assigned. */
  lemma DropAssigned<V>(fields: seq<Pair<V>>, key: string, other: string, v: V)
    requires Ordered(fields)
    ensures Drop(Assign(fields, other, v), key) ==
            if other == key then Drop(fields, key) else Assign(Drop(fields, key), other, v)
  {
    FindDropped(fields, key, other);
    if HasKey(fields, other) { DropPut(fields, key, other, v); } else { DropPlaced(fields, Pair(other, v), key); }
  }
}
