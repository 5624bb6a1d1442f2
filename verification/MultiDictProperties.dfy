/** Setting the values of one key is read back exactly, touches nothing else, and changes nothing when the values are
    the old ones; setting twice is setting once when the first values are enough. */
module MultiDictProperties {
  import opened Prelude
  import opened MultiDict

  lemma {:induction false} AppendRead<K, V>(kconv: K -> K, key: K, k: K, values: seq<V>)
    ensures GetAll(Append(key, values), kconv, k) == if kconv(key) == kconv(k) then values else []
    ensures Spellings(Append(key, values), kconv, key) == seq(|values|, _ => key)
    ensures Others(Append(key, values), kconv, key) == []
  {
    if values != [] {
      AppendRead(kconv, key, k, values[1..]);
      assert Append(key, values)[1..] == Append(key, values[1..]);
      assert Append(key, values)[0] == Field(key, values[0]);
      assert [key] + seq(|values| - 1, _ => key) == seq(|values|, _ => key);
    }
  }

  /** After `set_all(key, values)`, `get_all(key)` gives these values. */
  lemma {:induction false} GetAfterSet<K, V>(fields: seq<Field<K, V>>, kconv: K -> K, key: K, values: seq<V>)
    ensures GetAll(SetAll(fields, kconv, key, values), kconv, key) == values
  {
    if fields == [] {
      AppendRead(kconv, key, key, values);
    } else if !Matches(kconv, fields[0], key) {
      GetAfterSet(fields[1..], kconv, key, values);
    } else if values == [] {
      GetAfterSet(fields[1..], kconv, key, []);
    } else {
      GetAfterSet(fields[1..], kconv, key, values[1..]);
    }
  }

  /** All other fields keep their contents and their order. */
  lemma {:induction false} OthersAfterSet<K, V>(fields: seq<Field<K, V>>, kconv: K -> K, key: K, values: seq<V>)
    ensures Others(SetAll(fields, kconv, key, values), kconv, key) == Others(fields, kconv, key)
  {
    if fields == [] {
      AppendRead(kconv, key, key, values);
    } else if !Matches(kconv, fields[0], key) {
      OthersAfterSet(fields[1..], kconv, key, values);
    } else if values == [] {
      OthersAfterSet(fields[1..], kconv, key, []);
    } else {
      OthersAfterSet(fields[1..], kconv, key, values[1..]);
    }
  }

  /** The values of every other key stay as they are. */
  lemma OtherKeysAfterSet<K, V>(fields: seq<Field<K, V>>, kconv: K -> K, key: K, values: seq<V>, k: K)
    requires kconv(k) != kconv(key)
    ensures GetAll(SetAll(fields, kconv, key, values), kconv, k) == GetAll(fields, kconv, k)
  {
    OthersAfterSet(fields, kconv, key, values);
    OthersHold(fields, kconv, key, k);
    OthersHold(SetAll(fields, kconv, key, values), kconv, key, k);
  }

  /** The slots reused keep the old spelling of the key, surplus values get the new one, and surplus slots go. */
  lemma {:induction false} SpellingsAfterSet<K, V>(fields: seq<Field<K, V>>, kconv: K -> K, key: K, values: seq<V>)
    ensures
      var before := Spellings(fields, kconv, key);
      Spellings(SetAll(fields, kconv, key, values), kconv, key)
      == PyTake(before, |values|) + seq(if |values| > |before| then |values| - |before| else 0, _ => key)
  {
    if fields == [] {
      AppendRead(kconv, key, key, values);
    } else if !Matches(kconv, fields[0], key) {
      SpellingsAfterSet(fields[1..], kconv, key, values);
    } else if values == [] {
      SpellingsAfterSet(fields[1..], kconv, key, []);
    } else {
      SpellingsAfterSet(fields[1..], kconv, key, values[1..]);
      var rest := Spellings(fields[1..], kconv, key);
      assert PyTake([fields[0].key] + rest, |values|) == [fields[0].key] + PyTake(rest, |values| - 1);
    }
  }

  /** Setting what is there already changes nothing. */
  lemma {:induction false} SetWhatIsThere<K, V>(fields: seq<Field<K, V>>, kconv: K -> K, key: K)
    ensures SetAll(fields, kconv, key, GetAll(fields, kconv, key)) == fields
  {
    if fields != [] {
      SetWhatIsThere(fields[1..], kconv, key);
      assert fields == [fields[0]] + fields[1..];
      if Matches(kconv, fields[0], key) {
        var vs := GetAll(fields, kconv, key);
        assert vs[1..] == GetAll(fields[1..], kconv, key);
      }
    }
  }

  /** Where a reused slot stands: with as many values as before, no field moves and no spelling changes. */
  lemma {:induction false} SetInPlace<K, V>(fields: seq<Field<K, V>>, kconv: K -> K, key: K, values: seq<V>)
    requires |values| == |GetAll(fields, kconv, key)|
    ensures |SetAll(fields, kconv, key, values)| == |fields|
    ensures forall i :: 0 <= i < |fields| ==> SetAll(fields, kconv, key, values)[i].key == fields[i].key
    ensures forall i :: 0 <= i < |fields| && !Matches(kconv, fields[i], key)
              ==> SetAll(fields, kconv, key, values)[i] == fields[i]
  {
    if fields != [] {
      if Matches(kconv, fields[0], key) {
        SetInPlace(fields[1..], kconv, key, values[1..]);
      } else {
        SetInPlace(fields[1..], kconv, key, values);
      }
    }
  }

  /** Where surplus values stand: behind all fields. */
  lemma {:induction false} SurplusAtEnd<K, V>(fields: seq<Field<K, V>>, kconv: K -> K, key: K, values: seq<V>)
    requires |GetAll(fields, kconv, key)| <= |values|
    ensures
      var n := |GetAll(fields, kconv, key)|;
      SetAll(fields, kconv, key, values) == SetAll(fields, kconv, key, values[..n]) + Append(key, values[n..])
  {
    var n := |GetAll(fields, kconv, key)|;
    if fields == [] {
      assert Append(key, values[..0]) == [];
      assert values[0..] == values;
    } else if Matches(kconv, fields[0], key) {
      SurplusAtEnd(fields[1..], kconv, key, values[1..]);
      assert values[1..][..n - 1] == values[..n][1..] && values[1..][n - 1..] == values[n..];
    } else {
      SurplusAtEnd(fields[1..], kconv, key, values);
    }
  }

  /** Which slots are left over: the last ones. The values fill the slots of a front part that has as many of them,
      and behind it only the other fields remain. */
  lemma {:induction false} LastSlotsGo<K, V>(
    front: seq<Field<K, V>>, back: seq<Field<K, V>>, kconv: K -> K, key: K, values: seq<V>)
    requires |GetAll(front, kconv, key)| == |values|
    ensures SetAll(front + back, kconv, key, values) == SetAll(front, kconv, key, values) + Others(back, kconv, key)
  {
    if front == [] {
      assert front + back == back;
      DeleteIsSetNone(back, kconv, key);
      assert Append(key, values) == [];
      assert [] + Others(back, kconv, key) == Others(back, kconv, key);
    } else {
      assert (front + back)[0] == front[0] && (front + back)[1..] == front[1..] + back;
      LastSlotsGo(front[1..], back, kconv, key, if Matches(kconv, front[0], key) then values[1..] else values);
    }
  }

  lemma {:induction false} AppendedSet<K, V>(kconv: K -> K, key: K, values: seq<V>, again: seq<V>)
    ensures SetAll(Append(key, values), kconv, key, again) == Append(key, again)
  {
    if values != [] {
      assert Append(key, values)[0] == Field(key, values[0]) && Append(key, values)[1..] == Append(key, values[1..]);
      AppendedSet(kconv, key, values[1..], if again == [] then [] else again[1..]);
    }
  }

  /** Setting twice is setting once, if the first time leaves as many slots in place as the second time fills. */
  lemma {:induction false} SetTwice<K, V>(
    fields: seq<Field<K, V>>, kconv: K -> K, key: K, values: seq<V>, again: seq<V>)
    requires |values| >= Min(|GetAll(fields, kconv, key)|, |again|)
    ensures SetAll(SetAll(fields, kconv, key, values), kconv, key, again) == SetAll(fields, kconv, key, again)
  {
    if fields == [] {
      AppendedSet(kconv, key, values, again);
    } else {
      var tail := if again == [] then [] else again[1..];
      if !Matches(kconv, fields[0], key) {
        SetTwice(fields[1..], kconv, key, values, again);
      } else if values == [] {
        SetTwice(fields[1..], kconv, key, [], []);
      } else {
        SetTwice(fields[1..], kconv, key, values[1..], tail);
      }
    }
  }

  /** The position of slot n of a key. */
  ghost function SlotAt<K, V>(fields: seq<Field<K, V>>, kconv: K -> K, key: K, n: nat): (i: nat)
    requires n < |GetAll(fields, kconv, key)|
    ensures i < |fields| && Matches(kconv, fields[i], key)
  {
    if !Matches(kconv, fields[0], key) then 1 + SlotAt(fields[1..], kconv, key, n)
    else if n == 0 then 0
    else 1 + SlotAt(fields[1..], kconv, key, n - 1)
  }

  lemma {:induction false} SlotsBefore<K, V>(fields: seq<Field<K, V>>, kconv: K -> K, key: K, n: nat)
    requires n < |GetAll(fields, kconv, key)|
    ensures |GetAll(fields[..SlotAt(fields, kconv, key, n)], kconv, key)| == n
  {
    var i := SlotAt(fields, kconv, key, n);
    if i > 0 {
      SlotsBefore(fields[1..], kconv, key, if Matches(kconv, fields[0], key) then n - 1 else n);
      assert fields[..i][1..] == fields[1..][..i - 1];
    } else {
      assert fields[..0] == [];
    }
  }

  /** Setting twice is setting once exactly under this condition, or if all values fall at the end in any case: from
      the first dropped slot on there are only slots, and those to be filled have the given spelling. */
  lemma SetTwiceExact<K, V>(fields: seq<Field<K, V>>, kconv: K -> K, key: K, values: seq<V>, again: seq<V>)
    ensures
      var (v, n, m) := (|values|, |GetAll(fields, kconv, key)|, |again|);
      SetAll(SetAll(fields, kconv, key, values), kconv, key, again) == SetAll(fields, kconv, key, again)
      <==> v >= Min(n, m) || Plain(fields[SlotAt(fields, kconv, key, v)..], kconv, key, m - v)
  {
    hide SetAll, GetAll, SlotAt, Plain, Matches;
    var v := |values|;
    if v >= Min(|GetAll(fields, kconv, key)|, |again|) {
      SetTwice(fields, kconv, key, values, again);
    } else {
      SetTwiceShort(fields, kconv, key, values, again);
    }
  }

  lemma Halves<T>(s: seq<T>, i: nat)
    requires i <= |s|
    ensures s == s[..i] + s[i..]
  {
  }

  lemma SetTwiceShort<K, V>(fields: seq<Field<K, V>>, kconv: K -> K, key: K, values: seq<V>, again: seq<V>)
    requires |values| < |GetAll(fields, kconv, key)| && |values| < |again|
    ensures
      SetAll(SetAll(fields, kconv, key, values), kconv, key, again) == SetAll(fields, kconv, key, again)
      <==> Plain(fields[SlotAt(fields, kconv, key, |values|)..], kconv, key, |again| - |values|)
  {
    hide SetAll, GetAll, SlotAt, Plain, Matches;
    var i := SlotAt(fields, kconv, key, |values|);
    SlotsBefore(fields, kconv, key, |values|);
    Halves(fields, i);
    SetTwiceAt(fields, fields[..i], fields[i..], kconv, key, values, again);
  }

  /** Slots only, the first n of them in this spelling. */
  ghost predicate Plain<K, V>(fields: seq<Field<K, V>>, kconv: K -> K, key: K, n: nat) {
    Others(fields, kconv, key) == [] && forall i :: 0 <= i < Min(|fields|, n) ==> fields[i].key == key
  }

  lemma SetTwiceAt<K, V>(
    fields: seq<Field<K, V>>, front: seq<Field<K, V>>, back: seq<Field<K, V>>,
    kconv: K -> K, key: K, values: seq<V>, again: seq<V>)
    requires fields == front + back
    requires |GetAll(front, kconv, key)| == |values| < |again|
    requires back != [] && Matches(kconv, back[0], key)
    ensures
      SetAll(SetAll(fields, kconv, key, values), kconv, key, again) == SetAll(fields, kconv, key, again)
      <==> Plain(back, kconv, key, |again| - |values|)
  {
    var n := |values|;
    var filled, rest := SetAll(front, kconv, key, again[..n]), again[n..];
    LastSlotsGo(front, back, kconv, key, values);
    TwiceFront(front, back, kconv, key, values, again);
    OnceFront(front, back, kconv, key, again);
    hide SetAll, Others, GetAll;
    SetBack(back, kconv, key, rest);
    SamePrefix(filled, Others(back, kconv, key) + Append(key, rest), SetAll(back, kconv, key, rest));
  }

  lemma SamePrefix<T>(a: seq<T>, x: seq<T>, y: seq<T>)
    ensures a + x == a + y <==> x == y
  {
    if a + x == a + y {
      assert (a + x)[|a|..] == x && (a + y)[|a|..] == y;
    }
  }

  lemma {:induction false} OnceFront<K, V>(
    front: seq<Field<K, V>>, back: seq<Field<K, V>>, kconv: K -> K, key: K, again: seq<V>)
    requires |GetAll(front, kconv, key)| <= |again|
    ensures
      var n := |GetAll(front, kconv, key)|;
      SetAll(front + back, kconv, key, again)
      == SetAll(front, kconv, key, again[..n]) + SetAll(back, kconv, key, again[n..])
  {
    var n := |GetAll(front, kconv, key)|;
    if front == [] {
      assert front + back == back && again[0..] == again;
      assert Append(key, again[..0]) == [];
    } else {
      assert front + back == [front[0]] + (front[1..] + back) && front == [front[0]] + front[1..];
      if Matches(kconv, front[0], key) {
        OnceFront(front[1..], back, kconv, key, again[1..]);
        assert again[1..][..n - 1] == again[..n][1..] && again[1..][n - 1..] == again[n..];
        SetSlot(front[0], front[1..] + back, kconv, key, again);
        SetSlot(front[0], front[1..], kconv, key, again[..n]);
        hide SetAll;
      } else {
        OnceFront(front[1..], back, kconv, key, again);
        SetOther(front[0], front[1..] + back, kconv, key, again);
        SetOther(front[0], front[1..], kconv, key, again[..n]);
        hide SetAll;
      }
    }
  }

  lemma SetSlot<K, V>(f: Field<K, V>, rest: seq<Field<K, V>>, kconv: K -> K, key: K, values: seq<V>)
    requires Matches(kconv, f, key) && values != []
    ensures SetAll([f] + rest, kconv, key, values) == [Field(f.key, values[0])] + SetAll(rest, kconv, key, values[1..])
  {
    assert ([f] + rest)[1..] == rest;
  }

  /** After the first time only the slots in front are left. */
  lemma TwiceFront<K, V>(
    front: seq<Field<K, V>>, back: seq<Field<K, V>>, kconv: K -> K, key: K, values: seq<V>, again: seq<V>)
    requires |GetAll(front, kconv, key)| == |values| < |again|
    ensures
      var n := |values|;
      SetAll(SetAll(front, kconv, key, values) + Others(back, kconv, key), kconv, key, again)
      == SetAll(front, kconv, key, again[..n]) + (Others(back, kconv, key) + Append(key, again[n..]))
  {
    var n := |values|;
    var once := SetAll(front, kconv, key, values);
    GetAfterSet(front, kconv, key, values);
    OnceFront(once, Others(back, kconv, key), kconv, key, again);
    SetTwice(front, kconv, key, values, again[..n]);
    SetNowhere(back, kconv, key, again[n..]);
  }

  lemma {:induction false} SetNowhere<K, V>(fields: seq<Field<K, V>>, kconv: K -> K, key: K, values: seq<V>)
    ensures SetAll(Others(fields, kconv, key), kconv, key, values) == Others(fields, kconv, key) + Append(key, values)
  {
    if fields == [] {
      assert [] + Append(key, values) == Append(key, values);
    } else {
      SetNowhere(fields[1..], kconv, key, values);
      var rest := Others(fields[1..], kconv, key);
      if !Matches(kconv, fields[0], key) {
        SetOther(fields[0], rest, kconv, key, values);
        hide SetAll;
        assert [fields[0]] + rest + Append(key, values) == [fields[0]] + (rest + Append(key, values));
      }
    }
  }

  lemma SetOther<K, V>(f: Field<K, V>, rest: seq<Field<K, V>>, kconv: K -> K, key: K, values: seq<V>)
    requires !Matches(kconv, f, key)
    ensures SetAll([f] + rest, kconv, key, values) == [f] + SetAll(rest, kconv, key, values)
  {
    assert ([f] + rest)[1..] == rest;
  }

  /** When the values of a part that starts with a slot stand behind its other fields, as if all were surplus. */
  lemma SetBack<K, V>(back: seq<Field<K, V>>, kconv: K -> K, key: K, values: seq<V>)
    requires back != [] && Matches(kconv, back[0], key) && values != []
    ensures
      Others(back, kconv, key) + Append(key, values) == SetAll(back, kconv, key, values)
      <==> Plain(back, kconv, key, |values|)
  {
    var others := Others(back, kconv, key);
    if others == [] {
      assert others + Append(key, values) == Append(key, values);
      SetSlots(back, kconv, key, values);
    } else {
      OthersFirst(back, kconv, key);
      assert (others + Append(key, values))[0] == others[0];
      assert SetAll(back, kconv, key, values)[0].key == back[0].key;
    }
  }

  lemma {:induction false} OthersFirst<K, V>(fields: seq<Field<K, V>>, kconv: K -> K, key: K)
    requires Others(fields, kconv, key) != []
    ensures !Matches(kconv, Others(fields, kconv, key)[0], key)
  {
    if Matches(kconv, fields[0], key) {
      OthersFirst(fields[1..], kconv, key);
    }
  }

  /** Fields that are all slots: each value under the spelling of its slot, or the given one. */
  lemma {:induction false} SetSlots<K, V>(fields: seq<Field<K, V>>, kconv: K -> K, key: K, values: seq<V>)
    requires Others(fields, kconv, key) == []
    ensures SetAll(fields, kconv, key, values) == Append(key, values)
       <==> forall i :: 0 <= i < Min(|fields|, |values|) ==> fields[i].key == key
  {
    if fields != [] {
      assert Matches(kconv, fields[0], key);
      if values == [] {
        SetSlots(fields[1..], kconv, key, []);
        assert Append<K, V>(key, []) == [];
      } else {
        SetSlots(fields[1..], kconv, key, values[1..]);
        SameHead(Field(fields[0].key, values[0]), SetAll(fields[1..], kconv, key, values[1..]),
                 Field(key, values[0]), Append(key, values[1..]));
        assert Append(key, values) == [Field(key, values[0])] + Append(key, values[1..]);
        var m := Min(|fields|, |values|);
        assert (forall i :: 0 <= i < m ==> fields[i].key == key)
          <==> fields[0].key == key && forall i :: 0 <= i < m - 1 ==> fields[1..][i].key == key by {
          assert forall i :: 0 < i < m ==> fields[i] == fields[1..][i - 1];
        }
      }
    }
  }

  lemma SameHead<T>(a: T, x: seq<T>, b: T, y: seq<T>)
    ensures [a] + x == [b] + y <==> a == b && x == y
  {
    if [a] + x == [b] + y {
      assert ([a] + x)[1..] == x && ([b] + y)[1..] == y && ([a] + x)[0] == a && ([b] + y)[0] == b;
    }
  }

  /** Fields on which it fails: clearing a key first moves it behind the other one. */
  lemma ClearingMoves()
    ensures
      var fields, same := [Field(1, 10), Field(2, 20)], (k: nat) => k;
      && SetAll(SetAll(fields, same, 1, []), same, 1, [30]) == [Field(2, 20), Field(1, 30)]
      && SetAll(fields, same, 1, [30]) == [Field(1, 30), Field(2, 20)]
  {
    var fields, same := [Field(1, 10), Field(2, 20)], (k: nat) => k;
    assert fields[1..] == [Field(2, 20)] && [Field(2, 20)][1..] == [];
    assert SetAll(fields[1..], same, 1, []) == [Field(2, 20)];
    assert [30][1..] == [];
  }

  /** Deleting a key is setting it to no values at all. */
  lemma {:induction false} DeleteIsSetNone<K, V>(fields: seq<Field<K, V>>, kconv: K -> K, key: K)
    ensures SetAll(fields, kconv, key, []) == Others(fields, kconv, key)
    ensures GetAll(Others(fields, kconv, key), kconv, key) == []
  {
    if fields != [] {
      DeleteIsSetNone(fields[1..], kconv, key);
    }
  }

  lemma {:induction false} GetAllConcat<K, V>(a: seq<Field<K, V>>, b: seq<Field<K, V>>, kconv: K -> K, key: K)
    ensures GetAll(a + b, kconv, key) == GetAll(a, kconv, key) + GetAll(b, kconv, key)
  {
    if a == [] {
      assert a + b == b;
    } else {
      GetAllConcat(a[1..], b, kconv, key);
      assert (a + b)[0] == a[0] && (a + b)[1..] == a[1..] + b;
    }
  }

  /** An inserted value stands, among the values of its key, after those of the fields ahead of it; no other key
      sees it. The index may be negative or out of range. */
  lemma InsertRead<K, V>(fields: seq<Field<K, V>>, kconv: K -> K, index: int, key: K, value: V, k: K)
    ensures GetAll(Insert(fields, index, key, value), kconv, k)
         == GetAll(PyTake(fields, index), kconv, k) + (if kconv(k) == kconv(key) then [value] else [])
            + GetAll(PyDrop(fields, index), kconv, k)
    ensures GetAll(fields, kconv, k)
         == GetAll(PyTake(fields, index), kconv, k) + GetAll(PyDrop(fields, index), kconv, k)
  {
    var a, b := PyTake(fields, index), PyDrop(fields, index);
    var one := [Field(key, value)];
    GetAllConcat(a + one, b, kconv, k);
    GetAllConcat(a, one, kconv, k);
    GetAllConcat(a, b, kconv, k);
    assert fields == a + b;
    assert GetAll(one[1..], kconv, k) == [];
  }

  ghost function Image<K>(ks: seq<K>, kconv: K -> K): set<K> {
    if ks == [] then {} else {kconv(ks[0])} + Image(ks[1..], kconv)
  }

  /** Iteration lists a spelling of every canonical key that is not among the seen ones. */
  lemma {:induction false} KeysComplete<K, V>(fields: seq<Field<K, V>>, kconv: K -> K, seen: set<K>)
    ensures Image(Keys(fields, kconv, seen), kconv) == Canonical(fields, kconv) - seen
  {
    if fields != [] {
      var k := kconv(fields[0].key);
      KeysComplete(fields[1..], kconv, if k in seen then seen else seen + {k});
      if k !in seen {
        var rest := Keys(fields[1..], kconv, seen + {k});
        assert ([fields[0].key] + rest)[1..] == rest;
      }
    }
  }

  /** It lists none twice, and each in its first spelling. */
  lemma {:induction false} KeysOnce<K, V>(fields: seq<Field<K, V>>, kconv: K -> K, seen: set<K>)
    ensures |Image(Keys(fields, kconv, seen), kconv)| == |Keys(fields, kconv, seen)|
    ensures forall k :: k in Keys(fields, kconv, seen) ==>
      Spellings(fields, kconv, k) != [] && Spellings(fields, kconv, k)[0] == k
  {
    if fields != [] {
      var k := kconv(fields[0].key);
      if k in seen {
        KeysOnce(fields[1..], kconv, seen);
        KeysFresh(fields[1..], kconv, seen);
      } else {
        KeysOnce(fields[1..], kconv, seen + {k});
        KeysComplete(fields[1..], kconv, seen + {k});
        KeysFresh(fields[1..], kconv, seen + {k});
        var rest := Keys(fields[1..], kconv, seen + {k});
        assert ([fields[0].key] + rest)[1..] == rest;
        assert k !in Image(rest, kconv);
      }
    }
  }

  lemma {:induction false} KeysFresh<K, V>(fields: seq<Field<K, V>>, kconv: K -> K, seen: set<K>)
    ensures forall k :: k in Keys(fields, kconv, seen) ==> kconv(k) !in seen
  {
    if fields != [] {
      var k := kconv(fields[0].key);
      KeysFresh(fields[1..], kconv, if k in seen then seen else seen + {k});
    }
  }

  /** The spelling of each key in its first field, in field order. */
  ghost function FirstSpellings<K, V>(fields: seq<Field<K, V>>, kconv: K -> K): seq<K> {
    if fields == [] then []
    else
      var n := |fields| - 1;
      var known := exists i :: 0 <= i < n && kconv(fields[i].key) == kconv(fields[n].key);
      FirstSpellings(fields[..n], kconv) + (if known then [] else [fields[n].key])
  }

  lemma {:induction false} KeysLast<K, V>(fields: seq<Field<K, V>>, f: Field<K, V>, kconv: K -> K, seen: set<K>)
    ensures Keys(fields + [f], kconv, seen)
         == Keys(fields, kconv, seen)
            + (if kconv(f.key) in seen || kconv(f.key) in Canonical(fields, kconv) then [] else [f.key])
  {
    if fields == [] {
      assert fields + [f] == [f] && [f][1..] == [];
    } else {
      var k := kconv(fields[0].key);
      assert (fields + [f])[0] == fields[0] && (fields + [f])[1..] == fields[1..] + [f];
      KeysLast(fields[1..], f, kconv, if k in seen then seen else seen + {k});
    }
  }

  lemma {:induction false} CanonicalMember<K, V>(fields: seq<Field<K, V>>, kconv: K -> K, k: K)
    ensures k in Canonical(fields, kconv) <==> exists i :: 0 <= i < |fields| && kconv(fields[i].key) == k
  {
    if fields != [] {
      CanonicalMember(fields[1..], kconv, k);
      if i :| 0 <= i < |fields| && kconv(fields[i].key) == k {
        assert i > 0 ==> fields[1..][i - 1] == fields[i];
      }
      if j :| 0 <= j < |fields| - 1 && kconv(fields[1..][j].key) == k {
        assert fields[j + 1] == fields[1..][j];
      }
    }
  }

  /** Iteration goes through the first fields of the keys in order. */
  lemma {:induction false} KeysInOrder<K, V>(fields: seq<Field<K, V>>, kconv: K -> K)
    ensures Keys(fields, kconv, {}) == FirstSpellings(fields, kconv)
  {
    if fields != [] {
      var n := |fields| - 1;
      KeysInOrder(fields[..n], kconv);
      KeysLast(fields[..n], fields[n], kconv, {});
      CanonicalMember(fields[..n], kconv, kconv(fields[n].key));
      assert fields == fields[..n] + [fields[n]];
      assert forall i :: 0 <= i < n ==> fields[..n][i] == fields[i];
    }
  }

  /** `len` is the number of keys that iteration lists. */
  lemma LengthIsCount<K, V>(fields: seq<Field<K, V>>, kconv: K -> K)
    ensures Length(fields, kconv) == |Keys(fields, kconv, {})|
  {
    KeysComplete(fields, kconv, {});
    KeysOnce(fields, kconv, {});
    assert Canonical(fields, kconv) - {} == Canonical(fields, kconv);
  }
}
