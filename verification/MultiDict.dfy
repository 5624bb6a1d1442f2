/** The ordered multidict of mitmproxy/coretypes/multidict.py. Keys are compared in their canonical form, given by
    `kconv`, about which nothing is assumed. */
module MultiDict {
  import opened Prelude

  datatype Field<K, V> = Field(key: K, value: V)

  predicate Matches<K(==), V>(kconv: K -> K, f: Field<K, V>, key: K) {
    kconv(f.key) == kconv(key)
  }

  function GetAll<K(==), V>(fields: seq<Field<K, V>>, kconv: K -> K, key: K): seq<V> {
    if fields == [] then []
    else if Matches(kconv, fields[0], key) then [fields[0].value] + GetAll(fields[1..], kconv, key)
    else GetAll(fields[1..], kconv, key)
  }

  /** Fills the slots of the key with the new values from the front, drops the slots left over, and appends the
      values left over under the given spelling of the key. */
  function SetAll<K(==), V>(fields: seq<Field<K, V>>, kconv: K -> K, key: K, values: seq<V>): seq<Field<K, V>> {
    if fields == [] then Append(key, values)
    else if !Matches(kconv, fields[0], key) then [fields[0]] + SetAll(fields[1..], kconv, key, values)
    else if values == [] then SetAll(fields[1..], kconv, key, [])
    else [Field(fields[0].key, values[0])] + SetAll(fields[1..], kconv, key, values[1..])
  }

  function Append<K, V>(key: K, values: seq<V>): (r: seq<Field<K, V>>)
    ensures |r| == |values| && forall i :: 0 <= i < |r| ==> r[i] == Field(key, values[i])
  {
    seq(|values|, i requires 0 <= i < |values| => Field(key, values[i]))
  }

  /** The fields of other keys. */
  function Others<K(==), V>(fields: seq<Field<K, V>>, kconv: K -> K, key: K): seq<Field<K, V>> {
    if fields == [] then []
    else if Matches(kconv, fields[0], key) then Others(fields[1..], kconv, key)
    else [fields[0]] + Others(fields[1..], kconv, key)
  }

  /** The spellings of a key, in field order. */
  function Spellings<K(==), V>(fields: seq<Field<K, V>>, kconv: K -> K, key: K): seq<K> {
    if fields == [] then []
    else if Matches(kconv, fields[0], key) then [fields[0].key] + Spellings(fields[1..], kconv, key)
    else Spellings(fields[1..], kconv, key)
  }

  function Insert<K, V>(fields: seq<Field<K, V>>, index: int, key: K, value: V): seq<Field<K, V>> {
    PyTake(fields, index) + [Field(key, value)] + PyDrop(fields, index)
  }

  /** The first spelling of every key, in field order; `seen` are canonical keys already listed. */
  function Keys<K(==), V>(fields: seq<Field<K, V>>, kconv: K -> K, seen: set<K>): seq<K> {
    if fields == [] then []
    else
      var k := kconv(fields[0].key);
      if k in seen then Keys(fields[1..], kconv, seen)
      else [fields[0].key] + Keys(fields[1..], kconv, seen + {k})
  }

  /** The canonical keys. */
  function Canonical<K(==), V>(fields: seq<Field<K, V>>, kconv: K -> K): set<K> {
    if fields == [] then {} else {kconv(fields[0].key)} + Canonical(fields[1..], kconv)
  }

  /** `__len__` */
  function Length<K(==), V>(fields: seq<Field<K, V>>, kconv: K -> K): nat {
    |Canonical(fields, kconv)|
  }

  lemma SetAllStep<K, V>(fields: seq<Field<K, V>>, kconv: K -> K, key: K, values: seq<V>, front: seq<Field<K, V>>)
    requires fields != []
    ensures front + SetAll(fields, kconv, key, values)
         == if !Matches(kconv, fields[0], key) then front + [fields[0]] + SetAll(fields[1..], kconv, key, values)
            else if values == [] then front + SetAll(fields[1..], kconv, key, [])
            else front + [Field(fields[0].key, values[0])] + SetAll(fields[1..], kconv, key, values[1..])
  {
  }

  lemma {:induction false} OthersNone<K, V>(fields: seq<Field<K, V>>, kconv: K -> K, key: K)
    ensures GetAll(Others(fields, kconv, key), kconv, key) == []
  {
    if fields != [] {
      OthersNone(fields[1..], kconv, key);
    }
  }

  lemma {:induction false} OthersHold<K, V>(fields: seq<Field<K, V>>, kconv: K -> K, key: K, k: K)
    requires kconv(k) != kconv(key)
    ensures GetAll(Others(fields, kconv, key), kconv, k) == GetAll(fields, kconv, k)
  {
    if fields != [] {
      OthersHold(fields[1..], kconv, key, k);
      if !Matches(kconv, fields[0], key) {
        assert ([fields[0]] + Others(fields[1..], kconv, key))[1..] == Others(fields[1..], kconv, key);
      }
    }
  }

  // ----- the code -----

  /** A Python list that its owner can see being emptied. */
  class ValueList<V> {
    var items: seq<V>

    constructor (items: seq<V>)
      ensures this.items == items
    {
      this.items := items;
    }

    /** `pop(0)` */
    method PopFirst() returns (v: V)
      requires items != []
      modifies this
      ensures old(items) == [v] + items
    {
      v := items[0];
      items := items[1..];
    }
  }

  class MultiDict<K(==), V> {
    var fields: seq<Field<K, V>>
    const kconv: K -> K

    constructor (fields: seq<Field<K, V>>, kconv: K -> K)
      ensures this.fields == fields && this.kconv == kconv
    {
      this.fields := fields;
      this.kconv := kconv;
    }

    /** `set_all`, which empties the list it is given. */
    method SetAllFrom(key: K, values: ValueList<V>)
      modifies this`fields, values
      ensures fields == SetAll(old(fields), kconv, key, old(values.items))
      ensures values.items == []
    {
      var newFields: seq<Field<K, V>> := [];
      ghost var target := SetAll(fields, kconv, key, values.items);
      for i := 0 to |fields|
        invariant fields == old(fields)
        invariant target == newFields + SetAll(fields[i..], kconv, key, values.items)
      {
        SetAllStep(fields[i..], kconv, key, values.items, newFields);
        assert fields[i..][1..] == fields[i + 1..];
        hide SetAll;
        if kconv(fields[i].key) == kconv(key) {
          if values.items != [] {
            var v := values.PopFirst();
            newFields := newFields + [Field(fields[i].key, v)];
          }
        } else {
          newFields := newFields + [fields[i]];
        }
      }
      assert fields[|fields|..] == [];
      var rest := AppendFrom(key, values);
      fields := newFields + rest;
    }

    /** The loop over the values left over. */
    method AppendFrom(key: K, values: ValueList<V>) returns (rest: seq<Field<K, V>>)
      modifies values
      ensures values.items == [] && rest == Append(key, old(values.items))
    {
      rest := [];
      while values.items != []
        invariant Append(key, old(values.items)) == rest + Append(key, values.items)
        decreases |values.items|
      {
        ghost var vs := values.items;
        var v := values.PopFirst();
        assert Append<K, V>(key, vs) == [Field(key, v)] + Append(key, values.items);
        rest := rest + [Field(key, v)];
      }
    }

    /** `__delitem__`; false is the KeyError. */
    method DeleteItem(key: K) returns (ok: bool)
      modifies this`fields
      ensures ok == (GetAll(old(fields), kconv, key) != [])
      ensures fields == if ok then Others(old(fields), kconv, key) else old(fields)
      ensures GetAll(fields, kconv, key) == []
      ensures forall k :: kconv(k) != kconv(key) ==> GetAll(fields, kconv, k) == GetAll(old(fields), kconv, k)
    {
      ghost var was := fields;
      ok := GetAll(fields, kconv, key) != [];
      if ok {
        fields := Others(fields, kconv, key);
      }
      OthersNone(was, kconv, key);
      forall k | kconv(k) != kconv(key)
        ensures GetAll(fields, kconv, k) == GetAll(was, kconv, k)
      {
        OthersHold(was, kconv, key, k);
      }
    }

    method InsertItem(index: int, key: K, value: V)
      modifies this`fields
      ensures fields == Insert(old(fields), index, key, value)
    {
      fields := PyTake(fields, index) + [Field(key, value)] + PyDrop(fields, index);
    }

    method Add(key: K, value: V)
      modifies this`fields
      ensures fields == old(fields) + [Field(key, value)]
    {
      assert PyTake(fields, |fields|) == fields && PyDrop(fields, |fields|) == [];
      InsertItem(|fields|, key, value);
    }

    /** `__iter__` */
    method Iterate() returns (r: seq<K>)
      ensures r == Keys(fields, kconv, {})
    {
      r := [];
      var seen := {};
      for i := 0 to |fields|
        invariant Keys(fields, kconv, {}) == r + Keys(fields[i..], kconv, seen)
      {
        assert fields[i..][1..] == fields[i + 1..];
        var k := kconv(fields[i].key);
        if k !in seen {
          seen := seen + {k};
          r := r + [fields[i].key];
        }
      }
      assert fields[|fields|..] == [];
    }
  }
}
