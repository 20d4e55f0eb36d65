/**
  The client's dictionaries: `ValuesMap` (a flat result record, id -> value) and the
  `Dictionary<string, object>` parameter maps of the scheduling requests. Both are modelled as an
  insertion-ordered list of entries with distinct keys; the pure functions below are the
  specification that the mutating operations of the class are proved against.
*/
module ValuesMaps {
  import opened Wrappers

  /** The untyped values a record or a request parameter holds. */
  datatype Value = Null | Str(s: string) | Bool(b: bool) | Int(i: int) | Strings(items: seq<string>)

  datatype Entry = Entry(key: string, value: Value)

  /** A nullable C# string as a value. */
  function FromNullable(s: Option<string>): Value
  {
    match s
    case Some(t) => Str(t)
    case None => Null
  }

  predicate HasKey(es: seq<Entry>, k: string)
  {
    exists i :: 0 <= i < |es| && es[i].key == k
  }

  /** A dictionary never holds one key twice. */
  ghost predicate DistinctKeys(es: seq<Entry>)
  {
    forall i, j :: 0 <= i < j < |es| ==> es[i].key != es[j].key
  }

  /** The value stored under `k`. */
  function Lookup(es: seq<Entry>, k: string): (r: Option<Value>)
    ensures r.Some? <==> HasKey(es, k)
  {
    if es == [] then None
    else if es[0].key == k then Some(es[0].value)
    else
      assert HasKey(es, k) <==> HasKey(es[1..], k) by {
        if HasKey(es, k) { var i :| 0 <= i < |es| && es[i].key == k; assert es[1..][i - 1].key == k; }
        if HasKey(es[1..], k) { var i :| 0 <= i < |es[1..]| && es[1..][i].key == k; assert es[i + 1].key == k; }
      }
      Lookup(es[1..], k)
  }

  /** The dictionary indexer `d[k] = v`: replaces the value in place, or appends a new entry. */
  function Put(es: seq<Entry>, k: string, v: Value): seq<Entry>
  {
    if es == [] then [Entry(k, v)]
    else if es[0].key == k then [Entry(k, v)] + es[1..]
    else [es[0]] + Put(es[1..], k, v)
  }

  /** `Dictionary.Remove(k)`. */
  function Without(es: seq<Entry>, k: string): seq<Entry>
  {
    if es == [] then []
    else if es[0].key == k then Without(es[1..], k)
    else [es[0]] + Without(es[1..], k)
  }

  /** The entries whose key is one of `ids`, in the record's order. */
  function PickIds(es: seq<Entry>, ids: seq<string>): seq<Entry>
  {
    if es == [] then []
    else if es[0].key in ids then [es[0]] + PickIds(es[1..], ids)
    else PickIds(es[1..], ids)
  }

  /** The entries whose key is none of `ids`, in the record's order. */
  function DropIds(es: seq<Entry>, ids: seq<string>): seq<Entry>
  {
    if es == [] then []
    else if es[0].key in ids then DropIds(es[1..], ids)
    else [es[0]] + DropIds(es[1..], ids)
  }

  lemma {:induction false} HasKeyCons(e: Entry, es: seq<Entry>, k: string)
    ensures HasKey([e] + es, k) <==> e.key == k || HasKey(es, k)
  {
    var s := [e] + es;
    if HasKey(s, k) && e.key != k {
      var i :| 0 <= i < |s| && s[i].key == k;
      assert es[i - 1].key == k;
    }
    if HasKey(es, k) {
      var i :| 0 <= i < |es| && es[i].key == k;
      assert s[i + 1].key == k;
    }
    if e.key == k { assert s[0].key == k; }
  }

  lemma DistinctCons(e: Entry, es: seq<Entry>)
    ensures DistinctKeys([e] + es) <==> !HasKey(es, e.key) && DistinctKeys(es)
  {
    var s := [e] + es;
    if DistinctKeys(s) {
      forall i, j | 0 <= i < j < |es| ensures es[i].key != es[j].key { assert s[i + 1] == es[i] && s[j + 1] == es[j]; }
      forall i | 0 <= i < |es| ensures es[i].key != e.key { assert s[i + 1] == es[i] && s[0] == e; }
    }
    if !HasKey(es, e.key) && DistinctKeys(es) {
      forall i, j | 0 <= i < j < |s| ensures s[i].key != s[j].key {
        if i > 0 { assert s[i] == es[i - 1] && s[j] == es[j - 1]; } else { assert s[j] == es[j - 1]; }
      }
    }
  }

  lemma DistinctTail(es: seq<Entry>)
    requires es != [] && DistinctKeys(es)
    ensures DistinctKeys(es[1..]) && !HasKey(es[1..], es[0].key)
  {
    assert es == [es[0]] + es[1..];
    DistinctCons(es[0], es[1..]);
  }

  /** In a dictionary, the value stored under the key of the j-th entry is that entry's value. */
  lemma {:induction false} LookupAt(es: seq<Entry>, j: nat)
    requires DistinctKeys(es) && j < |es|
    ensures Lookup(es, es[j].key) == Some(es[j].value)
  {
    if j > 0 {
      DistinctTail(es);
      LookupAt(es[1..], j - 1);
    }
  }

  lemma {:induction false} LookupPut(es: seq<Entry>, k: string, v: Value, j: string)
    ensures Lookup(Put(es, k, v), j) == if j == k then Some(v) else Lookup(es, j)
    ensures HasKey(Put(es, k, v), j) <==> j == k || HasKey(es, j)
  {
    if es != [] && es[0].key != k {
      LookupPut(es[1..], k, v, j);
    }
  }

  /** Assigning a key that is not yet present appends it at the end. */
  lemma {:induction false} PutNew(es: seq<Entry>, k: string, v: Value)
    requires !HasKey(es, k)
    ensures Put(es, k, v) == es + [Entry(k, v)]
  {
    if es != [] {
      HasKeyCons(es[0], es[1..], k);
      assert es == [es[0]] + es[1..];
      PutNew(es[1..], k, v);
    }
  }

  /** Assigning a key that is present replaces its value where it stands. */
  lemma {:induction false} PutAt(es: seq<Entry>, j: nat, v: Value)
    requires DistinctKeys(es) && j < |es|
    ensures Put(es, es[j].key, v) == es[j := Entry(es[j].key, v)]
  {
    if j > 0 {
      DistinctTail(es);
      PutAt(es[1..], j - 1, v);
      assert es[1..][j - 1 := Entry(es[j].key, v)] == es[j := Entry(es[j].key, v)][1..];
    }
  }

  lemma {:induction false} PutKeepsDistinct(es: seq<Entry>, k: string, v: Value)
    requires DistinctKeys(es)
    ensures DistinctKeys(Put(es, k, v))
  {
    if es == [] {
    } else if es[0].key == k {
      DistinctTail(es);
      DistinctCons(Entry(k, v), es[1..]);
    } else {
      DistinctTail(es);
      PutKeepsDistinct(es[1..], k, v);
      LookupPut(es[1..], k, v, es[0].key);
      DistinctCons(es[0], Put(es[1..], k, v));
    }
  }

  lemma {:induction false} LookupWithout(es: seq<Entry>, k: string, j: string)
    ensures Lookup(Without(es, k), j) == if j == k then None else Lookup(es, j)
    ensures HasKey(Without(es, k), j) <==> j != k && HasKey(es, j)
  {
    if es != [] {
      LookupWithout(es[1..], k, j);
    }
  }

  lemma {:induction false} WithoutKeepsDistinct(es: seq<Entry>, k: string)
    requires DistinctKeys(es)
    ensures DistinctKeys(Without(es, k))
  {
    if es != [] {
      DistinctTail(es);
      WithoutKeepsDistinct(es[1..], k);
      if es[0].key != k {
        LookupWithout(es[1..], k, es[0].key);
        DistinctCons(es[0], Without(es[1..], k));
      }
    }
  }

  /** Removing a key that is not there changes nothing. */
  lemma {:induction false} WithoutAbsent(es: seq<Entry>, k: string)
    requires !HasKey(es, k)
    ensures Without(es, k) == es
  {
    if es != [] {
      HasKeyCons(es[0], es[1..], k);
      assert es == [es[0]] + es[1..];
      WithoutAbsent(es[1..], k);
    }
  }

  /** With no ids, nothing is picked and nothing is dropped. */
  lemma {:induction false} DropIdsEmpty(es: seq<Entry>)
    ensures PickIds(es, []) == [] && DropIds(es, []) == es
  {
    if es != [] {
      DropIdsEmpty(es[1..]);
    }
  }

  lemma {:induction false} PickIdsAppend(a: seq<Entry>, b: seq<Entry>, ids: seq<string>)
    ensures PickIds(a + b, ids) == PickIds(a, ids) + PickIds(b, ids)
    ensures DropIds(a + b, ids) == DropIds(a, ids) + DropIds(b, ids)
  {
    if a == [] {
      assert a + b == b;
    } else {
      var c := a + b;
      assert c != [] && c[0] == a[0] && c[1..] == a[1..] + b;
      PickIdsAppend(a[1..], b, ids);
      var head := if a[0].key in ids then [a[0]] else [];
      var rest := if a[0].key in ids then [] else [a[0]];
      assert PickIds(c, ids) == head + PickIds(a[1..] + b, ids);
      assert PickIds(a, ids) == head + PickIds(a[1..], ids);
      assert DropIds(c, ids) == rest + DropIds(a[1..] + b, ids);
      assert DropIds(a, ids) == rest + DropIds(a[1..], ids);
    }
  }

  /** Picking and dropping route every key of a record by membership in `ids` and keep its value. */
  lemma {:induction false} LookupPickDrop(es: seq<Entry>, ids: seq<string>, k: string)
    ensures Lookup(PickIds(es, ids), k) == if k in ids then Lookup(es, k) else None
    ensures Lookup(DropIds(es, ids), k) == if k in ids then None else Lookup(es, k)
  {
    if es != [] {
      LookupPickDrop(es[1..], ids, k);
    }
  }

  /** Nothing is dropped or duplicated: the two parts together are a permutation of the record. */
  lemma {:induction false} PickDropPermutation(es: seq<Entry>, ids: seq<string>)
    ensures multiset(PickIds(es, ids)) + multiset(DropIds(es, ids)) == multiset(es)
    ensures |PickIds(es, ids)| + |DropIds(es, ids)| == |es|
  {
    if es != [] {
      PickDropPermutation(es[1..], ids);
      assert es == [es[0]] + es[1..];
    }
  }

  lemma {:induction false} PickDropKeepDistinct(es: seq<Entry>, ids: seq<string>)
    requires DistinctKeys(es)
    ensures DistinctKeys(PickIds(es, ids)) && DistinctKeys(DropIds(es, ids))
  {
    if es != [] {
      DistinctTail(es);
      PickDropKeepDistinct(es[1..], ids);
      LookupPickDrop(es[1..], ids, es[0].key);
      DistinctCons(es[0], PickIds(es[1..], ids));
      DistinctCons(es[0], DropIds(es[1..], ids));
    }
  }

  /** Appending one entry to a parameter list changes only what is stored under its key. */
  lemma LookupSnoc(ps: seq<Entry>, i: nat, k: string)
    requires i < |ps| && DistinctKeys(ps)
    ensures HasKey(ps[..i + 1], k) <==> HasKey(ps[..i], k) || ps[i].key == k
    ensures Lookup(ps[..i + 1], k) == if ps[i].key == k then Some(ps[i].value) else Lookup(ps[..i], k)
  {
    var a, b := ps[..i], [ps[i]];
    assert ps[..i + 1] == a + b;
    LookupAppend(a, b, k);
    if ps[i].key == k {
      assert !HasKey(a, k) by {
        forall j | 0 <= j < |a| ensures a[j].key != k { assert a[j] == ps[j]; }
      }
    }
  }

  lemma {:induction false} LookupAppend(a: seq<Entry>, b: seq<Entry>, k: string)
    ensures Lookup(a + b, k) == if HasKey(a, k) then Lookup(a, k) else Lookup(b, k)
    ensures HasKey(a + b, k) <==> HasKey(a, k) || HasKey(b, k)
  {
    if a != [] {
      assert (a + b)[1..] == a[1..] + b;
      LookupAppend(a[1..], b, k);
      assert a == [a[0]] + a[1..];
      HasKeyCons(a[0], a[1..], k);
      assert a + b == [a[0]] + (a[1..] + b);
      HasKeyCons(a[0], a[1..] + b, k);
    } else {
      assert a + b == b;
    }
  }

  /** The position of the first entry stored under `k`. */
  function Position(es: seq<Entry>, k: string): (i: nat)
    requires HasKey(es, k)
    ensures i < |es| && es[i].key == k
  {
    if es[0].key == k then 0
    else
      assert HasKey(es[1..], k) by {
        var i :| 0 <= i < |es| && es[i].key == k;
        assert es[1..][i - 1].key == k;
      }
      1 + Position(es[1..], k)
  }

  /** Every key of `part` is a key of `es`, and `part` lists its entries in the order `es` has them. */
  ghost predicate InOrderOf(part: seq<Entry>, es: seq<Entry>)
  {
    && (forall a :: 0 <= a < |part| ==> HasKey(es, part[a].key))
    && (forall a, b :: 0 <= a < b < |part| ==> Position(es, part[a].key) < Position(es, part[b].key))
  }

  /** Behind a new first entry, every other key sits one position later. */
  lemma PositionCons(e: Entry, rest: seq<Entry>, k: string)
    requires DistinctKeys([e] + rest) && HasKey(rest, k)
    ensures HasKey([e] + rest, k) && Position([e] + rest, k) == 1 + Position(rest, k)
  {
    var es := [e] + rest;
    var i :| 0 <= i < |rest| && rest[i].key == k;
    assert es[i + 1].key == k && es[0] == e;
    assert es[1..] == rest;
  }

  /** Putting an entry in front of a dictionary keeps a part in order, whether or not the part takes that entry too. */
  lemma ConsInOrder(e: Entry, rest: seq<Entry>, part: seq<Entry>)
    requires DistinctKeys([e] + rest) && InOrderOf(part, rest)
    ensures InOrderOf(part, [e] + rest)
    ensures InOrderOf([e] + part, [e] + rest)
  {
    var es := [e] + rest;
    forall a | 0 <= a < |part| ensures HasKey(es, part[a].key) && Position(es, part[a].key) == 1 + Position(rest, part[a].key) {
      PositionCons(e, rest, part[a].key);
    }
    assert InOrderOf(part, es);
    var q := [e] + part;
    assert es[0] == e;
    assert HasKey(es, e.key) && Position(es, e.key) == 0;
    forall a | 0 < a < |q| ensures q[a] == part[a - 1] { }
  }

  /** A dictionary object. `ValuesMap` in the source; also stands for `Dictionary<string, object>`. */
  class ValuesMap {
    var entries: seq<Entry>

    ghost predicate Valid()
      reads this
    {
      DistinctKeys(entries)
    }

    constructor ()
      ensures Valid() && entries == []
    {
      entries := [];
    }

    /** `ValuesMap.ShallowCopy`: a new object holding the same entries. */
    constructor ShallowCopy(source: ValuesMap)
      requires source.Valid()
      ensures Valid() && entries == source.entries
    {
      entries := source.entries;
    }

    /** A collection initializer `new Dictionary { {k1, v1}, ... }` with distinct keys. */
    constructor FromEntries(es: seq<Entry>)
      requires DistinctKeys(es)
      ensures Valid() && entries == es
    {
      entries := es;
    }

    /** The indexer `this[k]`, as used only on keys the caller knows to be present. */
    function Get(k: string): (v: Value)
      reads this
      requires HasKey(entries, k)
      ensures Lookup(entries, k) == Some(v)
    {
      Lookup(entries, k).value
    }

    /** `Dictionary.Add`: fails (ArgumentException in C#) when the key is already present. */
    method Add(k: string, v: Value) returns (added: bool)
      requires Valid()
      modifies this
      ensures Valid()
      ensures added <==> !HasKey(old(entries), k)
      ensures entries == if added then old(entries) + [Entry(k, v)] else old(entries)
    {
      added := !HasKey(entries, k);
      if added {
        forall i | 0 <= i < |entries| ensures entries[i].key != k { }
        entries := entries + [Entry(k, v)];
      }
    }

    /** `Dictionary.Remove`. */
    method Remove(k: string) returns (removed: bool)
      requires Valid()
      modifies this
      ensures Valid()
      ensures removed <==> HasKey(old(entries), k)
      ensures entries == Without(old(entries), k)
    {
      removed := HasKey(entries, k);
      WithoutKeepsDistinct(entries, k);
      entries := Without(entries, k);
    }

    /** The indexer assignment `this[k] = v`. */
    method Set(k: string, v: Value)
      requires Valid()
      modifies this
      ensures Valid()
      ensures entries == Put(old(entries), k, v)
    {
      PutKeepsDistinct(entries, k, v);
      entries := Put(entries, k, v);
    }
  }
}
