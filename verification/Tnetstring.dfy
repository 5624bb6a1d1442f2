/** The tnetstring codec of mitmproxy/io/tnetstring.py: a writer that pushes its output last chunk first, and a
    recursive length-prefixed parser that works on bytes or on a file. */
module Tnetstring {
  import opened Prelude
  import opened Text

  /** A float, with the sign of a zero. */
  datatype Float = Finite(value: real, negative: bool) | Infinite(negative: bool) | NaN

  /** Python's `repr` of a float, and `float` of a text, where None is a ValueError. */
  datatype Floats = Floats(repr: Float -> seq<Byte>, read: seq<Byte> -> Option<Float>)

  /** Serializable values. A dict is the sequence of its entries in insertion order. */
  datatype Value =
    | Null
    | Bool(on: bool)
    | Int(number: int)
    | Real(float: Float)
    | Bytes(data: seq<Byte>)
    | Str(text: string)
    | List(items: seq<Value>)
    | Tuple(items: seq<Value>)
    | Dict(entries: seq<Entry>)

  datatype Entry = Entry(key: Value, val: Value)

  datatype Error =
    | EmptyFile        // ValueError: empty file
    | HugePrefix       // ValueError: absurdly large length prefix
    | BadPrefix        // ValueError: missing or invalid length prefix, or not enough data
    | NoTag            // IndexError: the file ends before the type tag
    | BadLiteral       // ValueError: the payload does not fit the type tag
    | UnknownTag       // ValueError: unknown type tag
    | Unhashable       // TypeError: a list or a dict as dictionary key

  const COLON: Byte := 58

  predicate Hashable(v: Value) {
    match v
    case List(_) => false
    case Dict(_) => false
    case Tuple(items) => forall x | x in items :: Hashable(x)
    case _ => true
  }

  /** Python's equality of dictionary keys that are no tuples: True is 1 is 1.0, and no two NaNs are equal. */
  predicate SameKey(a: Value, b: Value) {
    a != Real(NaN) && (a == b || (Number(a).Some? && Number(a) == Number(b)))
  }

  function Number(v: Value): Option<real> {
    match v
    case Bool(on) => Some(if on then 1.0 else 0.0)
    case Int(n) => Some(n as real)
    case Real(Finite(x, _)) => Some(x)
    case _ => None
  }

  // ----- the encoding -----

  function Tag(v: Value): Byte {
    match v
    case Null => 126
    case Bool(_) => 33
    case Int(_) => 35
    case Real(_) => 94
    case Bytes(_) => 44
    case Str(_) => 59
    case List(_) => 93
    case Tuple(_) => 93
    case Dict(_) => 125
  }

  const TRUE: seq<Byte> := [116, 114, 117, 101]
  const FALSE: seq<Byte> := [102, 97, 108, 115, 101]

  function Frame(payload: seq<Byte>, tag: Byte): seq<Byte> {
    Digits(|payload|) + [COLON] + payload + [tag]
  }

  function Payload(fl: Floats, v: Value): seq<Byte>
    decreases v, 0
  {
    match v
    case Null => []
    case Bool(on) => if on then TRUE else FALSE
    case Int(n) => IntText(n)
    case Real(x) => fl.repr(x)
    case Bytes(data) => data
    case Str(text) => EncodeText(text)
    case List(items) => EncodeItems(fl, items)
    case Tuple(items) => EncodeItems(fl, items)
    case Dict(entries) => EncodeEntries(fl, entries)
  }

  /** The encoding of a value, written down directly. */
  function Encode(fl: Floats, v: Value): seq<Byte>
    decreases v, 1
  {
    Frame(Payload(fl, v), Tag(v))
  }

  function EncodeItems(fl: Floats, items: seq<Value>): seq<Byte>
    decreases items
  {
    if items == [] then [] else Encode(fl, items[0]) + EncodeItems(fl, items[1..])
  }

  /** The entry inserted last comes first. */
  function EncodeEntries(fl: Floats, entries: seq<Entry>): seq<Byte>
    decreases entries
  {
    if entries == [] then []
    else EncodeEntry(fl, entries[|entries| - 1]) + EncodeEntries(fl, entries[..|entries| - 1])
  }

  function EncodeEntry(fl: Floats, e: Entry): seq<Byte>
    decreases e
  {
    Encode(fl, e.key) + Encode(fl, e.val)
  }

  /** What `dumps` can write: integers and payload lengths within the limit of `str`. */
  ghost predicate Writable(fl: Floats, v: Value)
    decreases v
  {
    && Short(|Payload(fl, v)|)
    && match v
       case Int(n) => Short(n)
       case List(items) => AllWritable(fl, items)
       case Tuple(items) => AllWritable(fl, items)
       case Dict(entries) => EntriesWritable(fl, entries)
       case _ => true
  }

  ghost predicate AllWritable(fl: Floats, items: seq<Value>)
    decreases items
  {
    forall x | x in items :: Writable(fl, x)
  }

  ghost predicate EntryWritable(fl: Floats, e: Entry)
    decreases e
  {
    Writable(fl, e.key) && Writable(fl, e.val)
  }

  ghost predicate EntriesWritable(fl: Floats, entries: seq<Entry>)
    decreases entries
  {
    forall e | e in entries :: EntryWritable(fl, e)
  }

  // ----- the parser -----

  function Find(data: seq<Byte>, b: Byte): (i: nat)
    ensures i <= |data| && b !in data[..i] && (i < |data| ==> data[i] == b)
  {
    if data == [] || data[0] == b then 0 else 1 + Find(data[1..], b)
  }

  function Split(data: seq<Byte>): (r: Result<(int, seq<Byte>), Error>)
    ensures r.Success? ==> |r.value.1| < |data|
  {
    var i := Find(data, COLON);
    if i == |data| then Failure(BadPrefix)
    else
      match PyInt(data[..i])
      case None => Failure(BadPrefix)
      case Some(n) => Success((n, data[i + 1..]))
  }

  function Pop(fl: Floats, data: seq<Byte>): (r: Result<(Value, seq<Byte>), Error>)
    ensures r.Success? ==> |r.value.1| < |data|
    decreases |data|, 0
  {
    match Split(data)
    case Failure(e) => Failure(e)
    case Success((n, rest)) =>
      match PyAt(rest, n)
      case None => Failure(BadPrefix)
      case Some(tag) =>
        match Parse(fl, tag, PyTake(rest, n))
        case Failure(e) => Failure(e)
        case Success(v) => Success((v, PyDrop(rest, n + 1)))
  }

  function Parse(fl: Floats, tag: Byte, data: seq<Byte>): Result<Value, Error>
    decreases |data|, 2
  {
    match tag
    case 44 => Success(Bytes(data))
    case 59 =>
      (match DecodeText(data)
       case None => Failure(BadLiteral)
       case Some(s) => Success(Str(s)))
    case 35 =>
      (match PyInt(data)
       case None => Failure(BadLiteral)
       case Some(n) => Success(Int(n)))
    case 94 =>
      (match fl.read(data)
       case None => Failure(BadLiteral)
       case Some(x) => Success(Real(x)))
    case 33 =>
      if data == TRUE then Success(Bool(true))
      else if data == FALSE then Success(Bool(false))
      else Failure(BadLiteral)
    case 126 => if data == [] then Success(Null) else Failure(BadLiteral)
    case 93 =>
      (match ParseItems(fl, data, [])
       case Failure(e) => Failure(e)
       case Success(items) => Success(List(items)))
    case 125 =>
      (match ParseEntries(fl, data, [])
       case Failure(e) => Failure(e)
       case Success(entries) => Success(Dict(entries)))
    case _ => Failure(UnknownTag)
  }

  function ParseItems(fl: Floats, data: seq<Byte>, items: seq<Value>): Result<seq<Value>, Error>
    decreases |data|, 1
  {
    if data == [] then Success(items)
    else
      match Pop(fl, data)
      case Failure(e) => Failure(e)
      case Success((v, rest)) => ParseItems(fl, rest, items + [v])
  }

  function ParseEntries(fl: Floats, data: seq<Byte>, entries: seq<Entry>): Result<seq<Entry>, Error>
    decreases |data|, 1
  {
    if data == [] then Success(entries)
    else
      match Pop(fl, data)
      case Failure(e) => Failure(e)
      case Success((k, rest)) =>
        match Pop(fl, rest)
        case Failure(e) => Failure(e)
        case Success((v, rest')) =>
          if Hashable(k) then ParseEntries(fl, rest', Put(entries, k, v)) else Failure(Unhashable)
  }

  /** `d[k] = v`: an equal key keeps its place and its spelling. */
  function Put(entries: seq<Entry>, k: Value, v: Value): (r: seq<Entry>)
    ensures (forall e :: e in entries ==> !SameKey(e.key, k)) ==> r == entries + [Entry(k, v)]
  {
    if entries == [] then [Entry(k, v)]
    else if SameKey(entries[0].key, k) then [Entry(entries[0].key, v)] + entries[1..]
    else [entries[0]] + Put(entries[1..], k, v)
  }

  // ----- reading from a file -----

  function LeadingDigits(s: seq<Byte>): (n: nat)
    ensures n <= |s| && forall i :: 0 <= i < n ==> IsDigit(s[i])
    ensures n < |s| ==> !IsDigit(s[n])
  {
    if s == [] || !IsDigit(s[0]) then 0 else 1 + LeadingDigits(s[1..])
  }

  /** How `load` reads the length prefix of a file whose unread content is s: the length, and how many bytes it has
      read then. */
  function PrefixFrom(s: seq<Byte>): (r: (Result<nat, Error>, nat))
    ensures r.1 <= |s|
  {
    var d := LeadingDigits(s);
    if s == [] then (Failure(EmptyFile), 0)
    else if d > 12 then (Failure(HugePrefix), 13)
    else if d == |s| then (Failure(BadPrefix), d)
    else if s[d] != COLON then (Failure(BadPrefix), d + 1)
    else
      match DigitsValue(s[..d])
      case None => (Failure(BadPrefix), d + 1)
      case Some(n) => (Success(n), d + 1)
  }

  /** What `load` returns on a file whose unread content is s, and how many bytes it has read then. */
  function LoadFrom(fl: Floats, s: seq<Byte>): (r: (Result<Value, Error>, nat))
    ensures r.1 <= |s|
  {
    var (length, d) := PrefixFrom(s);
    match length
    case Failure(e) => (Failure(e), d)
    case Success(n) =>
      if |s| - d <= n then (Failure(NoTag), |s|) else (Parse(fl, s[d + n], s[d..d + n]), d + n + 1)
  }

  // ----- the code -----

  /** The deque of output chunks. */
  class Deque {
    var chunks: seq<seq<Byte>>

    constructor ()
      ensures chunks == []
    {
      chunks := [];
    }

    method AppendLeft(chunk: seq<Byte>)
      modifies this
      ensures chunks == [chunk] + old(chunks)
      ensures Join(chunks) == chunk + Join(old(chunks))
    {
      chunks := [chunk] + chunks;
    }
  }

  function Join(chunks: seq<seq<Byte>>): seq<Byte> {
    if chunks == [] then [] else chunks[0] + Join(chunks[1..])
  }

  /** The framing of a scalar, in one chunk or in four. */
  method WriteFramed(q: Deque, size: int, data: seq<Byte>, tag: Byte, whole: bool) returns (newSize: Option<int>)
    modifies q
    ensures newSize == if Short(|data|) then Some(size + |Frame(data, tag)|) else None
    ensures newSize.Some? ==> Join(q.chunks) == Frame(data, tag) + Join(old(q.chunks))
  {
    var s := IntStr(|data|);
    if s.None? {
      return None;
    }
    var span := s.value;
    if whole {
      q.AppendLeft(span + [COLON] + data + [tag]);
    } else {
      q.AppendLeft([tag]);
      q.AppendLeft(data);
      q.AppendLeft([COLON]);
      q.AppendLeft(span);
    }
    newSize := Some(size + 2 + |span| + |data|);
  }

  lemma ConstantFrames(fl: Floats)
    ensures Encode(fl, Null) == [48, COLON, 126] && Writable(fl, Null)
    ensures Encode(fl, Bool(true)) == [52, COLON] + TRUE + [33] && Writable(fl, Bool(true))
    ensures Encode(fl, Bool(false)) == [53, COLON] + FALSE + [33] && Writable(fl, Bool(false))
  {
    assert Digits(0) == [48] && Digits(4) == [52] && Digits(5) == [53];
  }

  /** The branches of `_rdumpq` for scalars. */
  method RDumpScalar(fl: Floats, q: Deque, size: int, value: Value) returns (newSize: Option<int>)
    requires !value.List? && !value.Tuple? && !value.Dict?
    modifies q
    ensures newSize == if Writable(fl, value) then Some(size + |Encode(fl, value)|) else None
    ensures newSize.Some? ==> Join(q.chunks) == Encode(fl, value) + Join(old(q.chunks))
  {
    ConstantFrames(fl);
    hide Frame, Short;
    match value
    case Null =>
      q.AppendLeft([48, COLON, 126]);
      newSize := Some(size + 3);
    case Bool(on) =>
      if on {
        q.AppendLeft([52, COLON] + TRUE + [33]);
        newSize := Some(size + 7);
      } else {
        q.AppendLeft([53, COLON] + FALSE + [33]);
        newSize := Some(size + 8);
      }
    case Int(n) =>
      var data := IntStr(n);
      if data.None? {
        return None;
      }
      newSize := WriteFramed(q, size, data.value, 35, true);
    case Real(x) => newSize := WriteFramed(q, size, fl.repr(x), 94, true);
    case Bytes(data) => newSize := WriteFramed(q, size, data, 44, false);
    case Str(text) => newSize := WriteFramed(q, size, EncodeText(text), 59, false);
  }

  /** `_rdumpq`: prepends exactly the encoding, and returns the old size plus its length; None is the ValueError of
      `str`. */
  method RDumpQ(fl: Floats, q: Deque, size: int, value: Value) returns (newSize: Option<int>)
    modifies q
    ensures newSize == if Writable(fl, value) then Some(size + |Encode(fl, value)|) else None
    ensures newSize.Some? ==> Join(q.chunks) == Encode(fl, value) + Join(old(q.chunks))
    decreases value
  {
    match value
    case List(items) => newSize := RDumpSequence(fl, q, size, items);
    case Tuple(items) => newSize := RDumpSequence(fl, q, size, items);
    case Dict(entries) =>
      q.AppendLeft([125]);
      newSize := RDumpEntries(fl, q, size + 1, entries);
      if newSize.None? {
        return;
      }
      newSize := CloseFrame(q, newSize.value, newSize.value - (size + 1));
      Framed(EncodeEntries(fl, entries), 125, Join(old(q.chunks)));
    case _ => newSize := RDumpScalar(fl, q, size, value);
  }

  /** The branch for a list or a tuple. */
  method RDumpSequence(fl: Floats, q: Deque, size: int, items: seq<Value>) returns (newSize: Option<int>)
    modifies q
    ensures newSize == if AllWritable(fl, items) && Short(|EncodeItems(fl, items)|)
                       then Some(size + |Frame(EncodeItems(fl, items), 93)|) else None
    ensures newSize.Some? ==> Join(q.chunks) == Frame(EncodeItems(fl, items), 93) + Join(old(q.chunks))
    decreases items, 1
  {
    q.AppendLeft([93]);
    newSize := RDumpItems(fl, q, size + 1, items);
    if newSize.None? {
      return;
    }
    newSize := CloseFrame(q, newSize.value, newSize.value - (size + 1));
    Framed(EncodeItems(fl, items), 93, Join(old(q.chunks)));
  }

  lemma Framed(payload: seq<Byte>, tag: Byte, tail: seq<Byte>)
    ensures Digits(|payload|) + [COLON] + (payload + ([tag] + tail)) == Frame(payload, tag) + tail
  {
    Regroup(Digits(|payload|) + [COLON], payload, [tag], tail);
  }

  lemma Regroup(a: seq<Byte>, b: seq<Byte>, c: seq<Byte>, d: seq<Byte>)
    ensures a + (b + (c + d)) == a + b + c + d
  {
    assert a + (b + (c + d)) == (a + b) + (c + d);
    assert (a + b) + (c + d) == a + b + c + d;
  }

  /** The loop over a list, from its end. */
  method RDumpItems(fl: Floats, q: Deque, size: int, items: seq<Value>) returns (newSize: Option<int>)
    modifies q
    ensures newSize == if AllWritable(fl, items) then Some(size + |EncodeItems(fl, items)|) else None
    ensures newSize.Some? ==> Join(q.chunks) == EncodeItems(fl, items) + Join(old(q.chunks))
    decreases items, 0
  {
    hide Encode, EncodeItems, AllWritable, Writable;
    newSize := Some(size);
    ItemsMore(fl, items, |items|);
    for i := |items| downto 0
      invariant newSize == Some(size + |EncodeItems(fl, items[i..])|) && AllWritable(fl, items[i..])
      invariant Join(q.chunks) == EncodeItems(fl, items[i..]) + Join(old(q.chunks))
    {
      ItemsMore(fl, items, i);
      newSize := RDumpQ(fl, q, newSize.value, items[i]);
      if newSize.None? {
        return;
      }
    }
    assert items[0..] == items;
  }

  lemma ItemsMore(fl: Floats, items: seq<Value>, i: nat)
    requires i <= |items|
    ensures i == |items| ==> EncodeItems(fl, items[i..]) == [] && AllWritable(fl, items[i..])
    ensures i < |items| ==>
      && EncodeItems(fl, items[i..]) == Encode(fl, items[i]) + EncodeItems(fl, items[i + 1..])
      && (AllWritable(fl, items[i..]) <==> Writable(fl, items[i]) && AllWritable(fl, items[i + 1..]))
      && (AllWritable(fl, items) ==> Writable(fl, items[i]))
  {
    if i < |items| {
      hide Encode, Writable;
      assert items[i..][1..] == items[i + 1..] && items[i..] == [items[i]] + items[i + 1..];
      assert items[i] in items;
    }
  }

  lemma NoEntries(fl: Floats)
    ensures EncodeEntries(fl, []) == [] && EntriesWritable(fl, [])
  {
  }

  lemma EntriesMore(fl: Floats, entries: seq<Entry>, i: nat)
    requires i < |entries|
    ensures EncodeEntries(fl, entries[..i + 1]) == EncodeEntry(fl, entries[i]) + EncodeEntries(fl, entries[..i])
    ensures EntriesWritable(fl, entries[..i + 1])
       <==> EntryWritable(fl, entries[i]) && EntriesWritable(fl, entries[..i])
    ensures EntriesWritable(fl, entries) ==> EntryWritable(fl, entries[i])
  {
    hide EncodeEntry, EntryWritable;
    assert entries[..i + 1][..i] == entries[..i] && entries[..i + 1] == entries[..i] + [entries[i]];
    assert entries[i] in entries;
  }

  /** The loop over a dict, in insertion order. */
  method RDumpEntries(fl: Floats, q: Deque, size: int, entries: seq<Entry>) returns (newSize: Option<int>)
    modifies q
    ensures newSize == if EntriesWritable(fl, entries) then Some(size + |EncodeEntries(fl, entries)|) else None
    ensures newSize.Some? ==> Join(q.chunks) == EncodeEntries(fl, entries) + Join(old(q.chunks))
    decreases entries
  {
    hide EncodeEntry, EncodeEntries, EntriesWritable, EntryWritable;
    newSize := Some(size);
    NoEntries(fl);
    for i := 0 to |entries|
      invariant newSize == Some(size + |EncodeEntries(fl, entries[..i])|) && EntriesWritable(fl, entries[..i])
      invariant Join(q.chunks) == EncodeEntries(fl, entries[..i]) + Join(old(q.chunks))
    {
      EntriesMore(fl, entries, i);
      newSize := RDumpEntry(fl, q, newSize.value, entries[i]);
      if newSize.None? {
        return;
      }
    }
    assert entries[..|entries|] == entries;
  }

  method RDumpEntry(fl: Floats, q: Deque, size: int, e: Entry) returns (newSize: Option<int>)
    modifies q
    ensures newSize == if EntryWritable(fl, e) then Some(size + |EncodeEntry(fl, e)|) else None
    ensures newSize.Some? ==> Join(q.chunks) == EncodeEntry(fl, e) + Join(old(q.chunks))
    decreases e
  {
    newSize := RDumpQ(fl, q, size, e.val);
    if newSize.Some? {
      newSize := RDumpQ(fl, q, newSize.value, e.key);
    }
  }

  /** The length prefix of a list or dict whose payload is already in the deque. */
  method CloseFrame(q: Deque, size: int, length: nat) returns (newSize: Option<int>)
    modifies q
    ensures newSize == if Short(length) then Some(size + 1 + |Digits(length)|) else None
    ensures newSize.Some? ==> Join(q.chunks) == Digits(length) + [COLON] + Join(old(q.chunks))
  {
    var span := IntStr(length);
    if span.None? {
      return None;
    }
    q.AppendLeft([COLON]);
    q.AppendLeft(span.value);
    newSize := Some(size + 1 + |span.value|);
  }

  /** `dumps`; None is the ValueError of `str`. */
  method Dumps(fl: Floats, value: Value) returns (r: Option<seq<Byte>>)
    ensures r == if Writable(fl, value) then Some(Encode(fl, value)) else None
  {
    var q := new Deque();
    var size := RDumpQ(fl, q, 0, value);
    assert Encode(fl, value) + Join([]) == Encode(fl, value);
    r := if size.Some? then Some(Join(q.chunks)) else None;
  }

  method SplitAtColon(data: seq<Byte>) returns (r: Result<(int, seq<Byte>), Error>)
    ensures r == Split(data)
  {
    var i := 0;
    while i < |data| && data[i] != COLON
      invariant i <= |data| && COLON !in data[..i]
    {
      i := i + 1;
    }
    FirstFound(data, COLON, i);
    if i == |data| {
      return Failure(BadPrefix);
    }
    var n := PyInt(data[..i]);
    r := if n.None? then Failure(BadPrefix) else Success((n.value, data[i + 1..]));
  }

  method PopValue(fl: Floats, data: seq<Byte>) returns (r: Result<(Value, seq<Byte>), Error>)
    ensures r == Pop(fl, data)
    decreases |data|, 0
  {
    var s := SplitAtColon(data);
    if s.Failure? {
      return Failure(s.error);
    }
    var (n, rest) := s.value;
    var tag := PyAt(rest, n);
    if tag.None? {
      return Failure(BadPrefix);
    }
    var v := ParseValue(fl, tag.value, PyTake(rest, n));
    r := if v.Failure? then Failure(v.error) else Success((v.value, PyDrop(rest, n + 1)));
  }

  method ParseValue(fl: Floats, tag: Byte, data: seq<Byte>) returns (r: Result<Value, Error>)
    ensures r == Parse(fl, tag, data)
    decreases |data|, 2
  {
    hide Pop, ParseItems, ParseEntries;
    if tag == 93 {
      var items := ParseItemLoop(fl, data);
      r := if items.Failure? then Failure(items.error) else Success(List(items.value));
    } else if tag == 125 {
      var entries := ParseEntryLoop(fl, data);
      r := if entries.Failure? then Failure(entries.error) else Success(Dict(entries.value));
    } else {
      r := Parse(fl, tag, data);
    }
  }

  method ParseItemLoop(fl: Floats, data: seq<Byte>) returns (r: Result<seq<Value>, Error>)
    ensures r == ParseItems(fl, data, [])
    decreases |data|, 1
  {
    hide Pop;
    var items, rest := [], data;
    while rest != []
      invariant |rest| <= |data| && ParseItems(fl, rest, items) == ParseItems(fl, data, [])
      decreases |rest|
    {
      var p := PopValue(fl, rest);
      if p.Failure? {
        return Failure(p.error);
      }
      items, rest := items + [p.value.0], p.value.1;
    }
    r := Success(items);
  }

  method ParseEntryLoop(fl: Floats, data: seq<Byte>) returns (r: Result<seq<Entry>, Error>)
    ensures r == ParseEntries(fl, data, [])
    decreases |data|, 1
  {
    hide Pop;
    var entries, rest := [], data;
    while rest != []
      invariant |rest| <= |data| && ParseEntries(fl, rest, entries) == ParseEntries(fl, data, [])
      decreases |rest|
    {
      var k := PopValue(fl, rest);
      if k.Failure? {
        return Failure(k.error);
      }
      var v := PopValue(fl, k.value.1);
      if v.Failure? {
        return Failure(v.error);
      }
      if !Hashable(k.value.0) {
        return Failure(Unhashable);
      }
      entries, rest := Put(entries, k.value.0, v.value.0), v.value.1;
    }
    r := Success(entries);
  }

  class File {
    var data: seq<Byte>
    var pos: nat

    ghost predicate Valid()
      reads this
    {
      pos <= |data|
    }

    /** What has not been read yet. */
    function Unread(): seq<Byte>
      requires Valid()
      reads this
    {
      data[pos..]
    }

    constructor (data: seq<Byte>)
      ensures Valid() && Unread() == data
    {
      this.data, pos := data, 0;
    }

    /** `read(n)`: fewer bytes only at the end of the file. */
    method Read(n: nat) returns (r: seq<Byte>)
      requires Valid()
      modifies this`pos
      ensures Valid()
      ensures pos == old(pos) + |r| && |r| == Min(n, |data| - old(pos))
      ensures r == data[old(pos)..pos]
    {
      var m := Min(n, |data| - pos);
      r := data[pos..pos + m];
      pos := pos + m;
    }

    /** The part of `load` that reads the length prefix, one byte at a time. */
    method ReadLength() returns (r: Result<nat, Error>)
      requires Valid()
      modifies this`pos
      ensures Valid()
      ensures r == PrefixFrom(old(Unread())).0 && pos == old(pos) + PrefixFrom(old(Unread())).1
    {
      ghost var s := Unread();
      ghost var d := LeadingDigits(s);
      var c := Read(1);
      if c == [] {
        return Failure(EmptyFile);
      }
      var prefix := [];
      while c != [] && IsDigit(c[0])
        invariant Valid() && |prefix| <= 12 && |prefix| <= d && prefix == s[..|prefix|]
        invariant if |prefix| < |s| then c == [s[|prefix|]] && pos == old(pos) + |prefix| + 1
                  else c == [] && pos == old(pos) + |s|
        decreases 13 - |prefix|
      {
        assert |prefix| < d;
        assert s[..|prefix| + 1] == prefix + c;
        prefix := prefix + c;
        if |prefix| > 12 {
          return Failure(HugePrefix);
        }
        c := Read(1);
      }
      assert |prefix| == d;
      if c != [COLON] {
        return Failure(BadPrefix);
      }
      DigitsNotNegative(prefix);
      var n := PyInt(prefix);
      r := if n.None? then Failure(BadPrefix) else Success(n.value);
    }

    /** `load` */
    method Load(fl: Floats) returns (r: Result<Value, Error>)
      requires Valid()
      modifies this`pos
      ensures Valid()
      ensures r == LoadFrom(fl, old(Unread())).0 && pos == old(pos) + LoadFrom(fl, old(Unread())).1
    {
      hide PrefixFrom, Parse;
      ghost var s := Unread();
      var n := ReadLength();
      if n.Failure? {
        return Failure(n.error);
      }
      ghost var d := PrefixFrom(s).1;
      var body := Read(n.value);
      var tag := Read(1);
      if tag == [] {
        return Failure(NoTag);
      }
      Within(data, old(pos), d, n.value);
      r := ParseValue(fl, tag[0], body);
    }
  }

  lemma Within(data: seq<Byte>, start: nat, d: nat, n: nat)
    requires start + d + n < |data|
    ensures data[start..][d..d + n] == data[start + d..start + d + n] && data[start..][d + n] == data[start + d + n]
  {
  }

  lemma FirstFound(data: seq<Byte>, b: Byte, i: nat)
    requires i <= |data| && b !in data[..i] && (i < |data| ==> data[i] == b)
    ensures Find(data, b) == i
  {
    var j := Find(data, b);
    assert j < |data| ==> data[j] == b;
  }

  lemma DigitsNotNegative(b: seq<Byte>)
    requires |b| <= MAX_DIGITS && forall i :: 0 <= i < |b| ==> IsDigit(b[i])
    ensures PyInt(b) == DigitsValue(b)
  {
    hide DigitCount, DigitsValue;
    if b != [] {
      assert IsDigit(b[0]) && IsDigit(b[|b| - 1]);
    }
  }
}
