/** The parser undoes the writer on every value and before every remainder, on bytes and on files; and no
    encoding is the beginning of another one. */
module TnetstringProperties {
  import opened Prelude
  import opened Text
  import opened Tnetstring

  /** What Python guarantees of every value: `repr` and `float` restore floats, and the keys of a dict are hashable, no
      two of them equal. */
  ghost predicate Sound(fl: Floats, v: Value)
    decreases v
  {
    match v
    case Real(x) => fl.read(fl.repr(x)) == Some(x)
    case List(items) => AllSound(fl, items)
    case Tuple(items) => AllSound(fl, items)
    case Dict(entries) => SoundEntries(fl, entries)
    case _ => true
  }

  ghost predicate AllSound(fl: Floats, items: seq<Value>)
    decreases items
  {
    forall x | x in items :: Sound(fl, x)
  }

  ghost predicate SoundEntry(fl: Floats, e: Entry)
    decreases e
  {
    Hashable(e.key) && Sound(fl, e.key) && Sound(fl, e.val)
  }

  ghost predicate SoundEntries(fl: Floats, entries: seq<Entry>)
    decreases entries
  {
    Keyed(entries) && forall e | e in entries :: SoundEntry(fl, e)
  }

  /** No tuple is the key of a dict: as tuples are written like lists, such a key comes back as a list, which cannot be
      hashed. */
  ghost predicate Readable(v: Value)
    decreases v
  {
    match v
    case List(items) => AllReadable(items)
    case Tuple(items) => AllReadable(items)
    case Dict(entries) => EntriesReadable(entries)
    case _ => true
  }

  ghost predicate AllReadable(items: seq<Value>)
    decreases items
  {
    forall x | x in items :: Readable(x)
  }

  ghost predicate EntryReadable(e: Entry)
    decreases e
  {
    !e.key.Tuple? && Readable(e.val)
  }

  ghost predicate EntriesReadable(entries: seq<Entry>)
    decreases entries
  {
    forall e | e in entries :: EntryReadable(e)
  }

  /** A value that can be written and that Python can hold. */
  ghost predicate Good(fl: Floats, v: Value) {
    Sound(fl, v) && Writable(fl, v)
  }

  ghost predicate AllGood(fl: Floats, items: seq<Value>) {
    AllSound(fl, items) && AllWritable(fl, items)
  }

  ghost predicate GoodEntry(fl: Floats, e: Entry) {
    SoundEntry(fl, e) && EntryWritable(fl, e)
  }

  ghost predicate GoodEntries(fl: Floats, entries: seq<Entry>) {
    SoundEntries(fl, entries) && EntriesWritable(fl, entries)
  }

  ghost predicate Keyed(entries: seq<Entry>) {
    forall i, j :: 0 <= i < j < |entries| ==> !SameKey(entries[i].key, entries[j].key)
  }

  /** The value with every dict in the opposite insertion order, and tuples as lists: what reading a dump gives. */
  function Mirror(v: Value): Value
    decreases v
  {
    match v
    case List(items) => List(MirrorItems(items))
    case Tuple(items) => List(MirrorItems(items))
    case Dict(entries) => Dict(MirrorEntries(entries))
    case _ => v
  }

  function MirrorItems(items: seq<Value>): (r: seq<Value>)
    ensures |r| == |items|
    decreases items
  {
    if items == [] then [] else [Mirror(items[0])] + MirrorItems(items[1..])
  }

  function MirrorEntry(e: Entry): Entry
    decreases e
  {
    Entry(e.key, Mirror(e.val))
  }

  function MirrorEntries(entries: seq<Entry>): (r: seq<Entry>)
    ensures |r| == |entries|
    decreases entries
  {
    if entries == [] then []
    else [MirrorEntry(entries[|entries| - 1])] + MirrorEntries(entries[..|entries| - 1])
  }

  // ----- one frame -----

  /** A length prefix is read back, whatever follows it. */
  lemma SplitFrame(payload: seq<Byte>, tag: Byte, r: seq<Byte>)
    requires Short(|payload|)
    ensures Split(Frame(payload, tag) + r) == Success((|payload|, payload + [tag] + r))
  {
    var d := Digits(|payload|);
    var s := Frame(payload, tag) + r;
    assert s == d + ([COLON] + (payload + [tag] + r));
    assert s[..|d|] == d;
    assert COLON !in d;
    FirstFound(s, COLON, |d|);
    IntRead(|payload|);
    assert s[|d| + 1..] == payload + [tag] + r;
  }

  lemma PopFrame(fl: Floats, payload: seq<Byte>, tag: Byte, r: seq<Byte>)
    requires Short(|payload|)
    ensures var p, v := Pop(fl, Frame(payload, tag) + r), Parse(fl, tag, payload);
      if v.Success? then p == Success((v.value, r)) else p == Failure(v.error)
  {
    hide Split, Frame, Parse;
    SplitFrame(payload, tag, r);
    var rest := payload + [tag] + r;
    assert PyTake(rest, |payload|) == payload && PyDrop(rest, |payload| + 1) == r;
  }

  // ----- the round trip -----

  lemma ScalarParsed(fl: Floats, v: Value)
    requires Good(fl, v) && !v.List? && !v.Tuple? && !v.Dict?
    ensures Parse(fl, Tag(v), Payload(fl, v)) == Success(v)
  {
    match v
    case Int(n) => IntRead(n);
    case Str(text) => DecodeIsInverse(EncodeText(text), text);
    case _ =>
  }

  /** For every value and every remainder, `pop(dumps(v) + r)` is (v, r), with the dicts in the opposite order and
      tuples as lists; unless a tuple is a key, which is a TypeError. */
  lemma {:induction false} PopEncode(fl: Floats, v: Value, r: seq<Byte>)
    requires Sound(fl, v) && Writable(fl, v)
    ensures Pop(fl, Encode(fl, v) + r) == if Readable(v) then Success((Mirror(v), r)) else Failure(Unhashable)
    decreases v, 1
  {
    hide Pop, Frame;
    PopFrame(fl, Payload(fl, v), Tag(v), r);
    match v
    case List(items) =>
      ItemsRead(fl, items, []);
      assert [] + MirrorItems(items) == MirrorItems(items);
    case Tuple(items) =>
      ItemsRead(fl, items, []);
      assert [] + MirrorItems(items) == MirrorItems(items);
    case Dict(entries) =>
      assert Apart(entries, []);
      EntriesRead(fl, entries, []);
      assert [] + MirrorEntries(entries) == MirrorEntries(entries);
    case _ => ScalarParsed(fl, v);
  }

  lemma {:induction false} ItemsRead(fl: Floats, items: seq<Value>, done: seq<Value>)
    requires AllGood(fl, items)
    ensures ParseItems(fl, EncodeItems(fl, items), done)
         == if AllReadable(items) then Success(done + MirrorItems(items)) else Failure(Unhashable)
    decreases items
  {
    hide Pop, Sound, AllGood, Writable, Readable, AllReadable, Encode;
    if items != [] {
      SplitItems(fl, items);
      var rest := EncodeItems(fl, items[1..]);
      PopEncode(fl, items[0], rest);
      hide Mirror;
      var more := done + [Mirror(items[0])];
      EncodeNotEmpty(fl, items[0]);
      assert ParseItems(fl, EncodeItems(fl, items), done)
        == if Readable(items[0]) then ParseItems(fl, rest, more) else Failure(Unhashable);
      ItemsRead(fl, items[1..], more);
      assert MirrorItems(items) == [Mirror(items[0])] + MirrorItems(items[1..]);
      hide ParseItems, MirrorItems, EncodeItems;
      assert more + MirrorItems(items[1..]) == done + ([Mirror(items[0])] + MirrorItems(items[1..]));
    } else {
      NoItems();
      assert done + [] == done;
    }
  }

  lemma NoItems()
    ensures AllReadable([]) && EntriesReadable([])
  {
  }

  lemma SplitItems(fl: Floats, items: seq<Value>)
    requires items != [] && AllGood(fl, items)
    ensures Sound(fl, items[0]) && Writable(fl, items[0]) && AllGood(fl, items[1..])
    ensures AllReadable(items) <==> Readable(items[0]) && AllReadable(items[1..])
  {
    assert items == [items[0]] + items[1..];
  }

  lemma EncodeNotEmpty(fl: Floats, v: Value)
    ensures Encode(fl, v) != []
  {
  }

  /** No key of one sequence equals a key of the other. */
  ghost predicate Apart(entries: seq<Entry>, done: seq<Entry>) {
    forall e, d | e in entries && d in done :: !SameKey(d.key, e.key)
  }

  lemma {:induction false} EntriesRead(fl: Floats, entries: seq<Entry>, done: seq<Entry>)
    requires GoodEntries(fl, entries) && Apart(entries, done)
    ensures ParseEntries(fl, EncodeEntries(fl, entries), done)
         == if EntriesReadable(entries) then Success(done + MirrorEntries(entries)) else Failure(Unhashable)
    decreases entries
  {
    hide GoodEntries, GoodEntry, EntriesReadable, EntryReadable, Apart, EncodeEntry, Pop, Put, MirrorEntry;
    if entries != [] {
      var n := |entries| - 1;
      var e, rest := entries[n], EncodeEntries(fl, entries[..n]);
      var more := done + [MirrorEntry(e)];
      SplitEntries(fl, entries, done);
      EntryParsed(fl, e, rest, done);
      hide ParseEntries;
      EntriesRead(fl, entries[..n], more);
      assert more + MirrorEntries(entries[..n]) == done + MirrorEntries(entries);
    } else {
      NoItems();
      assert done + [] == done;
    }
  }

  /** The loop over a dict takes one encoded entry. */
  lemma {:induction false} EntryParsed(fl: Floats, e: Entry, rest: seq<Byte>, done: seq<Entry>)
    requires GoodEntry(fl, e) && Apart([e], done)
    ensures ParseEntries(fl, EncodeEntry(fl, e) + rest, done)
         == if EntryReadable(e) then ParseEntries(fl, rest, done + [MirrorEntry(e)]) else Failure(Unhashable)
    decreases e, 1
  {
    EntryRead(fl, e, rest);
    assert e in [e];
    PutLast(done, e);
    hide Pop, EncodeEntry, Encode;
  }

  lemma SplitEntries(fl: Floats, entries: seq<Entry>, done: seq<Entry>)
    requires entries != [] && GoodEntries(fl, entries) && Apart(entries, done)
    ensures var e, rest := entries[|entries| - 1], entries[..|entries| - 1];
      && GoodEntry(fl, e) && Apart([e], done)
      && GoodEntries(fl, rest) && Apart(rest, done + [MirrorEntry(e)])
      && (EntriesReadable(entries) <==> EntryReadable(e) && EntriesReadable(rest))
  {
    var n := |entries| - 1;
    assert entries == entries[..n] + [entries[n]];
    forall x, d | x in entries[..n] && d in done + [MirrorEntry(entries[n])]
      ensures !SameKey(d.key, x.key)
    {
      var i :| 0 <= i < n && entries[i] == x;
    }
  }

  lemma PutLast(done: seq<Entry>, e: Entry)
    requires forall d | d in done :: !SameKey(d.key, e.key)
    ensures Put(done, e.key, Mirror(e.val)) == done + [MirrorEntry(e)]
  {
  }

  lemma {:induction false} EntryRead(fl: Floats, e: Entry, r: seq<Byte>)
    requires GoodEntry(fl, e)
    ensures Pop(fl, EncodeEntry(fl, e) + r) == Success((Mirror(e.key), Encode(fl, e.val) + r))
    ensures Pop(fl, Encode(fl, e.val) + r)
         == if Readable(e.val) then Success((Mirror(e.val), r)) else Failure(Unhashable)
    ensures EncodeEntry(fl, e) != []
    ensures if e.key.Tuple? then !Hashable(Mirror(e.key)) else Hashable(e.key) && Mirror(e.key) == e.key
    decreases e, 0
  {
    hide Pop, Encode;
    assert EncodeEntry(fl, e) + r == Encode(fl, e.key) + (Encode(fl, e.val) + r);
    KeyReadable(e.key);
    PopEncode(fl, e.key, Encode(fl, e.val) + r);
    PopEncode(fl, e.val, r);
    EncodeNotEmpty(fl, e.key);
  }

  /** A key by itself is always readable, as there is no dict in it. */
  lemma {:induction false} KeyReadable(v: Value)
    requires Hashable(v)
    ensures Readable(v)
    decreases v
  {
    if v.Tuple? {
      forall x | x in v.items
        ensures Readable(x)
      {
        KeyReadable(x);
      }
    }
  }

  // ----- the mirrored value is the same value -----

  /** Equality of values where the order of dict entries does not matter, and a tuple may have become a list. */
  ghost predicate SameValue(a: Value, b: Value)
    decreases a
  {
    match (a, b)
    case (List(xs), List(ys)) => |xs| == |ys| && forall i | 0 <= i < |xs| :: SameValue(xs[i], ys[i])
    case (Tuple(xs), List(ys)) => |xs| == |ys| && forall i | 0 <= i < |xs| :: SameValue(xs[i], ys[i])
    case (Dict(es), Dict(fs)) => |es| == |fs| && forall e | e in es :: exists f | f in fs :: SameEntry(e, f)
    case _ => a == b
  }

  ghost predicate SameEntry(e: Entry, f: Entry)
    decreases e
  {
    e.key == f.key && SameValue(e.val, f.val)
  }

  lemma {:induction false} MirrorItemAt(items: seq<Value>, i: nat)
    requires i < |items|
    ensures MirrorItems(items)[i] == Mirror(items[i])
  {
    if i > 0 {
      MirrorItemAt(items[1..], i - 1);
    }
  }

  lemma {:induction false} MirrorEntryAt(entries: seq<Entry>, i: nat)
    requires i < |entries|
    ensures MirrorEntries(entries)[i] == MirrorEntry(entries[|entries| - 1 - i])
  {
    if i > 0 {
      MirrorEntryAt(entries[..|entries| - 1], i - 1);
    }
  }

  lemma {:induction false} MirrorSame(v: Value)
    ensures SameValue(v, Mirror(v))
    decreases v
  {
    match v
    case List(items) => MirrorSameItems(items);
    case Tuple(items) => MirrorSameItems(items);
    case Dict(entries) =>
      forall e | e in entries
        ensures exists f | f in MirrorEntries(entries) :: SameEntry(e, f)
      {
        var i :| 0 <= i < |entries| && entries[i] == e;
        MirrorEntryAt(entries, |entries| - 1 - i);
        MirrorSameEntry(e);
        assert MirrorEntry(e) in MirrorEntries(entries);
      }
    case _ =>
  }

  lemma {:induction false} MirrorSameItems(items: seq<Value>)
    ensures forall i | 0 <= i < |items| :: SameValue(items[i], MirrorItems(items)[i])
    decreases items
  {
    forall i | 0 <= i < |items|
      ensures SameValue(items[i], MirrorItems(items)[i])
    {
      MirrorItemAt(items, i);
      MirrorSame(items[i]);
    }
  }

  lemma {:induction false} MirrorSameEntry(e: Entry)
    ensures SameEntry(e, MirrorEntry(e))
    decreases e
  {
    MirrorSame(e.val);
  }

  /** The value with tuples as lists, except in keys. */
  function Listed(v: Value): Value
    decreases v
  {
    match v
    case List(items) => List(ListedItems(items))
    case Tuple(items) => List(ListedItems(items))
    case Dict(entries) => Dict(ListedEntries(entries))
    case _ => v
  }

  function ListedItems(items: seq<Value>): (r: seq<Value>)
    ensures |r| == |items| && forall i :: 0 <= i < |r| ==> r[i] == Listed(items[i])
    decreases items, 0
  {
    seq(|items|, i requires 0 <= i < |items| => Listed(items[i]))
  }

  function ListedEntry(e: Entry): Entry
    decreases e
  {
    Entry(e.key, Listed(e.val))
  }

  function ListedEntries(entries: seq<Entry>): (r: seq<Entry>)
    ensures |r| == |entries| && forall i :: 0 <= i < |r| ==> r[i] == ListedEntry(entries[i])
    decreases entries, 0
  {
    seq(|entries|, i requires 0 <= i < |entries| => ListedEntry(entries[i]))
  }

  /** Dumping and reading twice restores even the insertion order. */
  lemma {:induction false} MirrorTwice(v: Value)
    ensures Mirror(Mirror(v)) == Listed(v)
    decreases v
  {
    match v
    case List(items) => MirrorTwiceItems(items);
    case Tuple(items) => MirrorTwiceItems(items);
    case Dict(entries) => MirrorTwiceEntries(entries);
    case _ =>
  }

  lemma {:induction false} MirrorTwiceEntries(entries: seq<Entry>)
    ensures MirrorEntries(MirrorEntries(entries)) == ListedEntries(entries)
    decreases entries
  {
    var ms := MirrorEntries(entries);
    forall i | 0 <= i < |entries|
      ensures MirrorEntries(ms)[i] == ListedEntry(entries[i])
    {
      MirrorEntryAt(entries, |entries| - 1 - i);
      MirrorEntryAt(ms, i);
      MirrorTwiceEntry(entries[i]);
    }
  }

  lemma {:induction false} MirrorTwiceItems(items: seq<Value>)
    ensures MirrorItems(MirrorItems(items)) == ListedItems(items)
    decreases items
  {
    var ms := MirrorItems(items);
    forall i | 0 <= i < |items|
      ensures MirrorItems(ms)[i] == Listed(items[i])
    {
      MirrorItemAt(items, i);
      MirrorItemAt(ms, i);
      MirrorTwice(items[i]);
    }
  }

  lemma {:induction false} MirrorTwiceEntry(e: Entry)
    ensures MirrorEntry(MirrorEntry(e)) == ListedEntry(e)
    decreases e
  {
    MirrorTwice(e.val);
  }

  /** No encoding is a proper prefix of another: equal beginnings mean equal encodings and equal remainders; and equal
      encodings are those of equal values, with tuples as lists. */
  lemma PrefixFree(fl: Floats, u: Value, v: Value, r: seq<Byte>, q: seq<Byte>)
    requires Good(fl, u) && Good(fl, v) && Encode(fl, u) + r == Encode(fl, v) + q
    ensures Encode(fl, u) == Encode(fl, v) && r == q
    ensures Readable(u) && Readable(v) ==> Listed(u) == Listed(v)
  {
    SplitFrame(Payload(fl, u), Tag(u), r);
    SplitFrame(Payload(fl, v), Tag(v), q);
    var n := |Payload(fl, u)|;
    var x, y := Payload(fl, u) + [Tag(u)] + r, Payload(fl, v) + [Tag(v)] + q;
    assert x[..n] == Payload(fl, u) && y[..n] == Payload(fl, v) && x[n] == Tag(u) && y[n] == Tag(v);
    assert x[n + 1..] == r && y[n + 1..] == q;
    PopEncode(fl, u, r);
    PopEncode(fl, v, q);
    MirrorTwice(u);
    MirrorTwice(v);
  }

  // ----- files -----

  /** What `load` asks of the length prefix, beyond what `loads` accepts. */
  ghost predicate PlainPrefix(s: seq<Byte>) {
    var d := LeadingDigits(s);
    0 < d <= 12 && d < |s| && s[d] == COLON
  }

  lemma {:induction false} DigitsHaveValue(b: seq<Byte>)
    requires b != [] && forall i :: 0 <= i < |b| ==> IsDigit(b[i])
    ensures DigitsValue(b).Some?
  {
    if |b| > 1 {
      assert IsDigit(b[|b| - 2]);
      DigitsHaveValue(b[..|b| - 1]);
    }
  }

  /** A plain prefix is split off by `pop` as by `load`, and `load` takes no other. */
  lemma PlainSplit(s: seq<Byte>)
    ensures PrefixFrom(s).0.Success? <==> PlainPrefix(s)
    ensures PrefixFrom(s).0.Success? ==> Split(s) == Success((PrefixFrom(s).0.value, s[PrefixFrom(s).1..]))
  {
    if PlainPrefix(s) {
      var d := LeadingDigits(s);
      assert COLON !in s[..d];
      FirstFound(s, COLON, d);
      DigitsHaveValue(s[..d]);
      DigitsNotNegative(s[..d]);
    }
  }

  /** `load` succeeds exactly when `loads` would and the prefix is plain; it returns the same value and stops
      exactly where `pop` leaves its remainder. */
  lemma LoadAgreesWithPop(fl: Floats, s: seq<Byte>)
    ensures LoadFrom(fl, s).0.Success? <==> PlainPrefix(s) && Pop(fl, s).Success?
    ensures LoadFrom(fl, s).0.Success? ==> Pop(fl, s) == Success((LoadFrom(fl, s).0.value, s[LoadFrom(fl, s).1..]))
  {
    PlainSplit(s);
    hide Split, Parse, PrefixFrom, PlainPrefix;
    if PrefixFrom(s).0.Success? {
      var n, d := PrefixFrom(s).0.value, PrefixFrom(s).1;
      var rest := s[d..];
      if n < |rest| {
        assert PyTake(rest, n) == s[d..d + n];
        assert PyDrop(rest, n + 1) == s[d + n + 1..];
      }
    }
  }

  /** A string on which they differ, `" 3:abc,"`: `int` ignores the blank before the length, `load` refuses it. */
  lemma BlankPrefix(fl: Floats)
    ensures
      var s: seq<Byte> := [32, 51, 58, 97, 98, 99, 44];
      Pop(fl, s) == Success((Bytes([97, 98, 99]), [])) && LoadFrom(fl, s) == (Failure(BadPrefix), 1)
  {
    var s: seq<Byte> := [32, 51, 58, 97, 98, 99, 44];
    var rest: seq<Byte> := [97, 98, 99, 44];
    BlankIgnored();
    assert Find(s, COLON) == 2 by {
      assert s[..2] == [32, 51] && s[2] == COLON;
    }
    assert s[..2] == [32, 51] && s[3..] == rest;
    assert Split(s) == Success((3, rest));
    hide Split, PyInt, Find;
    assert rest[..3] == [97, 98, 99] && rest[4..] == [];
    assert LeadingDigits(s) == 0;
  }

  lemma BlankIgnored()
    ensures PyInt([32, 51]) == Some(3)
  {
    var three: seq<Byte> := [51];
    var b: seq<Byte> := [32, 51];
    assert b[1..] == three && StripLeft(b) == StripLeft(three) == three;
    assert StripRight(three) == three;
  }

  lemma FramePlain(payload: seq<Byte>, tag: Byte, r: seq<Byte>)
    ensures PlainPrefix(Frame(payload, tag) + r) <==> |payload| < Pow10(12)
  {
    var d := Digits(|payload|);
    var s := Frame(payload, tag) + r;
    assert s[..|d|] == d && s[|d|] == COLON;
    LeadingDigitsAre(s, |d|);
    DigitsLength(|payload|, 12);
  }

  lemma {:induction false} LeadingDigitsAre(s: seq<Byte>, n: nat)
    requires n < |s| && !IsDigit(s[n]) && forall i :: 0 <= i < n ==> IsDigit(s[i])
    ensures LeadingDigits(s) == n
  {
    if n > 0 {
      LeadingDigitsAre(s[1..], n - 1);
    }
  }

  /** Reading a dump from a file works exactly when it is readable and its payload has at most 12 digits of length;
      then it reads this one encoding and not a byte more. */
  lemma LoadEncode(fl: Floats, v: Value, r: seq<Byte>)
    requires Good(fl, v)
    ensures LoadFrom(fl, Encode(fl, v) + r).0.Success? <==> Readable(v) && |Payload(fl, v)| < Pow10(12)
    ensures LoadFrom(fl, Encode(fl, v) + r).0.Success? ==>
      LoadFrom(fl, Encode(fl, v) + r) == (Success(Mirror(v)), |Encode(fl, v)|)
  {
    var s := Encode(fl, v) + r;
    EncodePlain(fl, v, r);
    assert Pop(fl, s) == if Readable(v) then Success((Mirror(v), r)) else Failure(Unhashable) by {
      PopEncode(fl, v, r);
    }
    LoadAgreesWithPop(fl, s);
    hide Pop, Encode, Payload, LoadFrom, PlainPrefix, Good, Readable, Mirror, Pow10;
    if LoadFrom(fl, s).0.Success? {
      EndsAt(Encode(fl, v), r, LoadFrom(fl, s).1);
    }
  }

  lemma EncodePlain(fl: Floats, v: Value, r: seq<Byte>)
    ensures PlainPrefix(Encode(fl, v) + r) <==> |Payload(fl, v)| < Pow10(12)
  {
    FramePlain(Payload(fl, v), Tag(v), r);
    hide Frame, Payload, PlainPrefix;
  }

  lemma EndsAt(a: seq<Byte>, r: seq<Byte>, k: nat)
    requires k <= |a + r| && (a + r)[k..] == r
    ensures k == |a|
  {
    assert |(a + r)[k..]| == |a| + |r| - k;
  }

  /** Reading up to n values one after the other. */
  ghost function LoadMany(fl: Floats, s: seq<Byte>, n: nat): Result<(seq<Value>, seq<Byte>), Error> {
    if n == 0 then Success(([], s))
    else
      match LoadFrom(fl, s).0
      case Failure(e) => Failure(e)
      case Success(v) =>
        match LoadMany(fl, s[LoadFrom(fl, s).1..], n - 1)
        case Failure(e) => Failure(e)
        case Success((vs, rest)) => Success(([v] + vs, rest))
  }

  /** Concatenated dumps read back as the same values in the same order. */
  lemma {:induction false} LoadConcatenated(fl: Floats, vs: seq<Value>, r: seq<Byte>)
    requires forall v | v in vs :: Good(fl, v) && Readable(v) && |Payload(fl, v)| < Pow10(12)
    ensures LoadMany(fl, EncodeItems(fl, vs) + r, |vs|) == Success((MirrorItems(vs), r))
  {
    hide LoadFrom, Good, Readable, Encode, Payload, Pow10;
    if vs != [] {
      var rest := EncodeItems(fl, vs[1..]) + r;
      var s := EncodeItems(fl, vs) + r;
      assert s == Encode(fl, vs[0]) + rest;
      LoadEncode(fl, vs[0], rest);
      assert s[|Encode(fl, vs[0])|..] == rest;
      LoadConcatenated(fl, vs[1..], r);
    } else {
      assert EncodeItems(fl, vs) + r == r;
    }
  }

  /** `loads(dumps(v))` */
  lemma LoadsDumps(fl: Floats, v: Value)
    requires Good(fl, v)
    ensures
      var p := Pop(fl, Encode(fl, v));
      if Readable(v) then p.Success? && p.value.1 == [] && SameValue(v, p.value.0) else p == Failure(Unhashable)
  {
    PopEncode(fl, v, []);
    assert Encode(fl, v) + [] == Encode(fl, v);
    MirrorSame(v);
  }

  /** A value that can be dumped and not be read: a dict whose key is the empty tuple. */
  lemma TupleKey(fl: Floats)
    ensures
      var v := Dict([Entry(Tuple([]), Null)]);
      && Good(fl, v) && Encode(fl, v) == [54, 58, 48, 58, 93, 48, 58, 126, 125]
      && Pop(fl, Encode(fl, v)) == Failure(Unhashable)
  {
    var e := Entry(Tuple([]), Null);
    TupleKeyEncoded(fl);
    assert !EntryReadable(e) && e in [e];
    hide Encode, Good, Pop;
    LoadsDumps(fl, Dict([e]));
  }

  lemma TupleKeyEncoded(fl: Floats)
    ensures
      var v := Dict([Entry(Tuple([]), Null)]);
      Good(fl, v) && Encode(fl, v) == [54, 58, 48, 58, 93, 48, 58, 126, 125]
  {
  }
}
