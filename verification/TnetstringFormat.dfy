/** The format itself, byte by byte: what the writer puts out for each type, what the parser makes of each tag, and
    where the readers fail. Tags, punctuation and literals are written out here as the bytes they are. */
module TnetstringFormat {
  import opened Prelude
  import opened Text
  import opened Tnetstring
  import opened TnetstringProperties

  // ----- decimal numbers -----

  /** A byte above its marker. */
  ghost function Bits(b: int, marker: int): int {
    b - marker
  }

  /** The number that a text of ASCII digits stands for. */
  ghost function Decimal(b: seq<Byte>): int {
    if b == [] then 0 else Decimal(b[..|b| - 1]) * 10 + Bits(b[|b| - 1], 48)
  }

  ghost predicate AsciiDigits(b: seq<Byte>) {
    forall i :: 0 <= i < |b| ==> 48 <= b[i] <= 57
  }

  /** `str` of a number: its decimal digits, without a leading zero. */
  lemma {:induction false} DigitsAreDecimal(n: nat)
    ensures AsciiDigits(Digits(n)) && Digits(n) != [] && Decimal(Digits(n)) == n
    ensures n > 0 ==> Digits(n)[0] != 48
  {
    var d := Digits(n);
    if n >= 10 {
      DigitsAreDecimal(n / 10);
      assert d[..|d| - 1] == Digits(n / 10);
    } else {
      assert d[..0] == [] && Decimal([]) == 0;
    }
  }

  lemma IntTextIs(i: int)
    ensures IntText(i) == if i < 0 then [45] + Digits(-i) else Digits(i)
    ensures Short(i) <==> i < Pow10(4300) && -i < Pow10(4300)
  {
    DigitsLength(if i < 0 then -i else i, 4300);
  }

  /** Digits with single underscores between them. */
  ghost predicate Underscored(b: seq<Byte>) {
    && b != [] && b[0] != 95 && b[|b| - 1] != 95
    && (forall i :: 0 <= i < |b| ==> b[i] == 95 || 48 <= b[i] <= 57)
    && (forall i :: 0 <= i < |b| - 1 ==> b[i] != 95 || b[i + 1] != 95)
  }

  ghost function NoUnderscores(b: seq<Byte>): seq<Byte> {
    if b == [] then []
    else NoUnderscores(b[..|b| - 1]) + (if b[|b| - 1] == 95 then [] else [b[|b| - 1]])
  }

  lemma {:induction false} DigitsValueIs(b: seq<Byte>)
    ensures DigitsValue(b).Some? <==> Underscored(b)
    ensures Underscored(b) ==> DigitsValue(b).value == Decimal(NoUnderscores(b))
  {
    var n := |b|;
    if n >= 2 && 48 <= b[n - 1] <= 57 {
      var k := if b[n - 2] == 95 then n - 2 else n - 1;
      var c := b[..k];
      DigitsValueIs(c);
      UnderscoredLast(b);
      NoUnderscoresLast(b);
      hide Underscored, NoUnderscores;
      var r := NoUnderscores(c);
      assert (r + [b[n - 1]])[..|r|] == r;
    } else if n == 1 {
      assert b[..0] == [] && NoUnderscores([]) == [] && Decimal([]) == 0;
      assert [] + [b[0]] == [b[0]] && [b[0]][..0] == [];
    }
  }

  lemma UnderscoredLast(b: seq<Byte>)
    requires |b| >= 2 && 48 <= b[|b| - 1] <= 57
    ensures Underscored(b) <==> Underscored(b[..if b[|b| - 2] == 95 then |b| - 2 else |b| - 1])
  {
    var n := |b|;
    var c := b[..if b[n - 2] == 95 then n - 2 else n - 1];
    if Underscored(b) && b[n - 2] == 95 {
      assert n >= 3 && b[n - 3] != 95;
    }
  }

  lemma NoUnderscoresLast(b: seq<Byte>)
    requires |b| >= 2 && b[|b| - 1] != 95
    ensures NoUnderscores(b) == NoUnderscores(b[..if b[|b| - 2] == 95 then |b| - 2 else |b| - 1]) + [b[|b| - 1]]
  {
    var n := |b|;
    assert b[..n - 1][..n - 2] == b[..n - 2];
    assert NoUnderscores(b[..n - 2]) + [] == NoUnderscores(b[..n - 2]);
  }

  ghost predicate Blanks(b: seq<Byte>) {
    forall i :: 0 <= i < |b| ==> b[i] in {9, 10, 11, 12, 13, 32}
  }

  ghost predicate Tight(b: seq<Byte>) {
    b != [] ==> b[0] !in {9, 10, 11, 12, 13, 32} && b[|b| - 1] !in {9, 10, 11, 12, 13, 32}
  }

  /** The sign of a number and its digits. */
  ghost function Unsigned(b: seq<Byte>): (bool, seq<Byte>) {
    if b != [] && b[0] == 45 then (true, b[1..])
    else if b != [] && b[0] == 43 then (false, b[1..])
    else (false, b)
  }

  /** `int` of bytes: blanks around, one sign, digits with single underscores between them, and not too many. */
  lemma IntIs(front: seq<Byte>, b: seq<Byte>, back: seq<Byte>)
    requires Blanks(front) && Blanks(back) && Tight(b)
    ensures
      var (minus, d) := Unsigned(b);
      PyInt(front + b + back)
      == if !Underscored(d) || |NoUnderscores(d)| > 4300 then None
         else Some(if minus then -Decimal(NoUnderscores(d)) else Decimal(NoUnderscores(d)))
  {
    StripFront(front, b + back);
    assert front + b + back == front + (b + back);
    StripTight(b, back);
    hide DigitsValue, StripLeft, StripRight, DigitCount, Underscored, NoUnderscores, Decimal, Blanks, Tight;
    DigitsValueIs(Unsigned(b).1);
    PyIntIs(front + b + back, b);
    if Underscored(Unsigned(b).1) {
      DigitCountIs(Unsigned(b).1);
      SignNotCounted(b);
    }
  }

  lemma SignNotCounted(b: seq<Byte>)
    ensures DigitCount(b) == DigitCount(Unsigned(b).1)
  {
  }

  lemma PyIntIs(data: seq<Byte>, b: seq<Byte>)
    requires StripRight(StripLeft(data)) == b
    ensures
      var (minus, d) := Unsigned(b);
      PyInt(data)
      == if DigitCount(b) > 4300 then None else if minus then Negated(DigitsValue(d)) else DigitsValue(d)
  {
    hide DigitsValue, StripLeft, StripRight, DigitCount;
  }

  lemma {:induction false} StripFront(front: seq<Byte>, b: seq<Byte>)
    requires Blanks(front)
    ensures StripLeft(front + b) == StripLeft(b)
  {
    if front == [] {
      assert front + b == b;
    } else {
      assert (front + b)[0] == front[0] && (front + b)[1..] == front[1..] + b;
      StripFront(front[1..], b);
    }
  }

  lemma {:induction false} StripBack(b: seq<Byte>, back: seq<Byte>)
    requires Blanks(back) && Tight(b)
    ensures StripRight(b + back) == b
  {
    if back == [] {
      assert b + back == b;
    } else {
      var n := |back| - 1;
      assert (b + back)[|b| + n] == back[n] && (b + back)[..|b| + n] == b + back[..n];
      StripBack(b, back[..n]);
    }
  }

  lemma {:induction false} StripTight(b: seq<Byte>, back: seq<Byte>)
    requires Blanks(back) && Tight(b)
    ensures StripRight(StripLeft(b + back)) == b
  {
    if b == [] {
      assert b + back == back && StripLeft(back + []) == StripLeft([]) by { StripFront(back, []); }
      assert back + [] == back;
    } else {
      assert (b + back)[0] == b[0];
      StripBack(b, back);
    }
  }

  lemma {:induction false} DigitCountIs(b: seq<Byte>)
    requires Underscored(b)
    ensures DigitCount(b) == |NoUnderscores(b)|
  {
    CountOf(b);
  }

  lemma {:induction false} CountOf(b: seq<Byte>)
    requires forall i :: 0 <= i < |b| ==> b[i] == 95 || 48 <= b[i] <= 57
    ensures DigitCount(b) == |NoUnderscores(b)|
  {
    if b != [] {
      var n := |b| - 1;
      CountOf(b[..n]);
      CountConcat(b[..n], [b[n]]);
      assert b == b[..n] + [b[n]];
    }
  }

  lemma {:induction false} CountConcat(a: seq<Byte>, b: seq<Byte>)
    ensures DigitCount(a + b) == DigitCount(a) + DigitCount(b)
  {
    if a == [] {
      assert a + b == b;
    } else {
      assert (a + b)[0] == a[0] && (a + b)[1..] == a[1..] + b;
      CountConcat(a[1..], b);
    }
  }

  // ----- UTF-8 -----

  ghost predicate Continuations(b: seq<Byte>) {
    forall i :: 1 <= i < |b| ==> 0x80 <= b[i] <= 0xBF
  }

  /** Each character in one to four bytes, as section 3 of RFC 3629 lays them out. */
  lemma Utf8(c: char)
    ensures
      var n, b := c as int, EncodeChar(c);
      if n <= 0x7F then b == [n]
      else if n <= 0x7FF then
        && |b| == 2 && 0xC2 <= b[0] <= 0xDF && Continuations(b)
        && n == Bits(b[0], 0xC0) * 64 + Bits(b[1], 0x80)
      else if n <= 0xFFFF then
        && |b| == 3 && 0xE0 <= b[0] <= 0xEF && Continuations(b)
        && n == Bits(b[0], 0xE0) * 4096 + Bits(b[1], 0x80) * 64 + Bits(b[2], 0x80)
      else
        && |b| == 4 && 0xF0 <= b[0] <= 0xF4 && Continuations(b)
        && n == Bits(b[0], 0xF0) * 262144 + Bits(b[1], 0x80) * 4096 + Bits(b[2], 0x80) * 64 + Bits(b[3], 0x80)
  {
  }

  /** The bytes of a text are those of its characters, in order. */
  lemma {:induction false} Utf8Text(s: string, t: string)
    ensures EncodeText(s + t) == EncodeText(s) + EncodeText(t)
  {
    hide EncodeChar;
    if s == [] {
      assert s + t == t;
    } else {
      assert (s + t)[0] == s[0] && (s + t)[1..] == s[1..] + t;
      Utf8Text(s[1..], t);
    }
  }

  lemma Utf8One(c: char)
    ensures EncodeText([]) == [] && EncodeText([c]) == EncodeChar(c)
  {
    hide EncodeChar;
    assert [c][1..] == [] && EncodeChar(c) + [] == EncodeChar(c);
  }

  // ----- what is written -----

  /** Items one after the other. */
  ghost function ItemBytes(fl: Floats, items: seq<Value>): seq<Byte> {
    if items == [] then [] else ItemBytes(fl, items[..|items| - 1]) + Encode(fl, items[|items| - 1])
  }

  /** Entries from the last one to the first one, each with its key ahead of its value. */
  ghost function EntryBytes(fl: Floats, entries: seq<Entry>): seq<Byte> {
    if entries == [] then []
    else EntryBytes(fl, entries[1..]) + Encode(fl, entries[0].key) + Encode(fl, entries[0].val)
  }

  ghost function Framed(payload: seq<Byte>, tag: Byte): seq<Byte> {
    Digits(|payload|) + [58] + payload + [tag]
  }

  /** The whole format: `0:~`, `4:true!`, `5:false!`, and for every other type the length of the payload, a colon, the
      payload, and the tag `#`, `^`, `,`, `;`, `]` or `}`. */
  lemma WireFormat(fl: Floats, v: Value)
    ensures
      Encode(fl, v)
      == match v
         case Null => [48, 58, 126]
         case Bool(on) => if on then [52, 58, 116, 114, 117, 101, 33] else [53, 58, 102, 97, 108, 115, 101, 33]
         case Int(n) => Framed(IntText(n), 35)
         case Real(x) => Framed(fl.repr(x), 94)
         case Bytes(data) => Framed(data, 44)
         case Str(text) => Framed(EncodeText(text), 59)
         case List(items) => Framed(ItemBytes(fl, items), 93)
         case Tuple(items) => Framed(ItemBytes(fl, items), 93)
         case Dict(entries) => Framed(EntryBytes(fl, entries), 125)
  {
    match v
    case Null => ConstantFrames(fl);
    case Bool(on) => ConstantFrames(fl);
    case List(items) => ItemBytesAre(fl, items);
    case Tuple(items) => ItemBytesAre(fl, items);
    case Dict(entries) => EntryBytesAre(fl, entries);
    case _ =>
  }

  lemma {:induction false} ItemBytesAre(fl: Floats, items: seq<Value>)
    ensures EncodeItems(fl, items) == ItemBytes(fl, items)
  {
    hide Encode;
    if items != [] {
      var n := |items| - 1;
      ItemBytesAre(fl, items[..n]);
      ItemsLast(fl, items[..n], items[n]);
      assert items == items[..n] + [items[n]];
    }
  }

  lemma {:induction false} ItemsLast(fl: Floats, items: seq<Value>, v: Value)
    ensures EncodeItems(fl, items + [v]) == EncodeItems(fl, items) + Encode(fl, v)
  {
    hide Encode;
    if items == [] {
      assert [] + [v] == [v] && [v][1..] == [];
      assert Encode(fl, v) + [] == [] + Encode(fl, v);
    } else {
      assert (items + [v])[0] == items[0] && (items + [v])[1..] == items[1..] + [v];
      ItemsLast(fl, items[1..], v);
    }
  }

  lemma {:induction false} EntryBytesAre(fl: Floats, entries: seq<Entry>)
    ensures EncodeEntries(fl, entries) == EntryBytes(fl, entries)
  {
    hide Encode;
    if entries != [] {
      EntryBytesAre(fl, entries[1..]);
      EntriesFirst(fl, entries[0], entries[1..]);
      assert entries == [entries[0]] + entries[1..];
    }
  }

  lemma {:induction false} EntriesFirst(fl: Floats, e: Entry, entries: seq<Entry>)
    ensures EncodeEntries(fl, [e] + entries) == EncodeEntries(fl, entries) + Encode(fl, e.key) + Encode(fl, e.val)
  {
    hide Encode;
    if entries == [] {
      assert [e] + entries == [e] && [e][..0] == [];
      assert EncodeEntry(fl, e) + [] == [] + Encode(fl, e.key) + Encode(fl, e.val);
    } else {
      var n := |entries| - 1;
      assert ([e] + entries)[n + 1] == entries[n] && ([e] + entries)[..n + 1] == [e] + entries[..n];
      EntriesFirst(fl, e, entries[..n]);
    }
  }

  // ----- what is read -----

  /** The items of a list payload, popped one after the other. */
  ghost predicate Pops(fl: Floats, data: seq<Byte>, items: seq<Value>) {
    if items == [] then data == []
    else
      data != [] && Pop(fl, data).Success? && Pop(fl, data).value.0 == items[0]
      && Pops(fl, Pop(fl, data).value.1, items[1..])
  }

  lemma {:induction false} ItemsPopped(fl: Floats, data: seq<Byte>, done: seq<Value>, items: seq<Value>)
    ensures ParseItems(fl, data, done) == Success(done + items) <==> Pops(fl, data, items)
    decreases |data|
  {
    hide Pop;
    ItemsLonger(fl, data, done);
    if data != [] && Pop(fl, data).Success? {
      var (v, rest) := Pop(fl, data).value;
      if items != [] {
        ItemsPopped(fl, rest, done + [v], items[1..]);
        assert done + items == done + [items[0]] + items[1..];
        ItemsLonger(fl, rest, done + [v]);
        if ParseItems(fl, rest, done + [v]) == Success(done + items) {
          assert (done + items)[|done|] == v;
        }
      } else {
        ItemsLonger(fl, rest, done + [v]);
        assert done + items == done;
      }
    } else if data == [] {
      assert done + items == done <==> items == [] by {
        assert |done + items| == |done| + |items|;
        assert items == [] ==> done + items == done;
      }
    }
  }

  lemma {:induction false} ItemsLonger(fl: Floats, data: seq<Byte>, done: seq<Value>)
    ensures ParseItems(fl, data, done).Success? ==> done <= ParseItems(fl, data, done).value
    decreases |data|
  {
    hide Pop;
    if data != [] && Pop(fl, data).Success? {
      var (v, rest) := Pop(fl, data).value;
      ItemsLonger(fl, rest, done + [v]);
    }
  }

  /** What the parser makes of every tag byte. */
  lemma ParsedTags(fl: Floats, data: seq<Byte>, tag: Byte)
    ensures Parse(fl, 44, data) == Success(Bytes(data))
    ensures forall s :: Parse(fl, 59, data) == Success(Str(s)) <==> data == EncodeText(s)
    ensures Parse(fl, 59, data).Failure? ==> Parse(fl, 59, data) == Failure(BadLiteral)
    ensures Parse(fl, 35, data) == if PyInt(data).Some? then Success(Int(PyInt(data).value)) else Failure(BadLiteral)
    ensures
      Parse(fl, 94, data)
      == if fl.read(data).Some? then Success(Real(fl.read(data).value)) else Failure(BadLiteral)
    ensures
      Parse(fl, 33, data)
      == if data == [116, 114, 117, 101] then Success(Bool(true))
         else if data == [102, 97, 108, 115, 101] then Success(Bool(false))
         else Failure(BadLiteral)
    ensures Parse(fl, 126, data) == if data == [] then Success(Null) else Failure(BadLiteral)
    ensures forall items :: Parse(fl, 93, data) == Success(List(items)) <==> Pops(fl, data, items)
    ensures tag !in {44, 59, 35, 94, 33, 126, 93, 125} ==> Parse(fl, tag, data) == Failure(UnknownTag)
  {
    hide DecodeText, EncodeText, PyInt, ParseItems, ParseEntries;
    forall s
      ensures Parse(fl, 59, data) == Success(Str(s)) <==> data == EncodeText(s)
    {
      DecodeIsInverse(data, s);
    }
    forall items
      ensures Parse(fl, 93, data) == Success(List(items)) <==> Pops(fl, data, items)
    {
      ItemsPopped(fl, data, [], items);
      assert [] + items == items;
    }
  }

  /** The value that a dict has for a key. */
  ghost function Lookup(entries: seq<Entry>, k: Value): Option<Value> {
    if entries == [] then None
    else if SameKey(entries[0].key, k) then Some(entries[0].val)
    else Lookup(entries[1..], k)
  }

  ghost function KeysOf(entries: seq<Entry>): seq<Value> {
    if entries == [] then [] else [entries[0].key] + KeysOf(entries[1..])
  }

  /** `d[k] = v` gives k the value v and no other key another one; an equal key keeps its place and its spelling, a new
      one comes last. */
  lemma {:induction false} PutLaw(entries: seq<Entry>, k: Value, v: Value, other: Value)
    requires !SameKey(k, other)
    ensures k != Real(NaN) ==> Lookup(Put(entries, k, v), k) == Some(v)
    ensures Lookup(Put(entries, k, v), other) == Lookup(entries, other)
    ensures KeysOf(Put(entries, k, v)) == if Lookup(entries, k).Some? then KeysOf(entries) else KeysOf(entries) + [k]
  {
    SameKeySelf(k);
    hide SameKey;
    if entries != [] && !SameKey(entries[0].key, k) {
      PutLaw(entries[1..], k, v, other);
    } else if entries != [] {
      SameKeyClass(entries[0].key, k, other);
    }
  }

  lemma SameKeySelf(k: Value)
    ensures SameKey(k, k) <==> k != Real(NaN)
  {
  }

  lemma SameKeyClass(x: Value, k: Value, y: Value)
    requires SameKey(x, k)
    ensures SameKey(x, y) <==> SameKey(k, y)
  {
  }

  /** Which keys Python can hash. */
  lemma KeysHashable(items: seq<Value>, entries: seq<Entry>, v: Value)
    ensures !Hashable(List(items)) && !Hashable(Dict(entries))
    ensures Hashable(Tuple(items)) <==> forall x :: x in items ==> Hashable(x)
    ensures !v.List? && !v.Dict? && !v.Tuple? ==> Hashable(v)
  {
  }

  /** Which keys Python takes for equal: numbers by value, whatever their type, with no NaN equal to anything; all other
      keys that are no tuples only if they are the same. */
  lemma KeyEquality(on: bool, n: int, x: real, minus: bool, k: Value, l: Value)
    ensures SameKey(Bool(on), Int(n)) <==> n == if on then 1 else 0
    ensures SameKey(Int(n), Real(Finite(x, minus))) <==> x == n as real
    ensures SameKey(Bool(on), Real(Finite(x, minus))) <==> x == if on then 1.0 else 0.0
    ensures !SameKey(Real(NaN), k) && !SameKey(k, Real(NaN))
    ensures k.Str? || k.Bytes? || k.Null? ==> (SameKey(k, l) <==> k == l)
    ensures SameKey(k, l) <==> SameKey(l, k)
  {
  }

  /** One pair of a dict payload: a hashable key, then its value. */
  lemma DictPair(fl: Floats, data: seq<Byte>, done: seq<Entry>)
    ensures data == [] ==> ParseEntries(fl, data, done) == Success(done)
    ensures data != [] && Pop(fl, data).Success? && Pop(fl, Pop(fl, data).value.1).Success? ==>
      var (k, rest) := Pop(fl, data).value;
      var (v, rest') := Pop(fl, rest).value;
      ParseEntries(fl, data, done)
      == if Hashable(k) then ParseEntries(fl, rest', Put(done, k, v)) else Failure(Unhashable)
  {
    hide Pop, Put;
  }

  /** A key that is repeated in the bytes of a dict keeps its place and takes the later value. */
  lemma LaterValueWins(fl: Floats, k: Value, v: Value, u: Value)
    requires Good(fl, k) && Good(fl, v) && Good(fl, u) && Hashable(k) && !k.Tuple? && k != Real(NaN)
    requires Readable(v) && Readable(u)
    ensures Parse(fl, 125, Encode(fl, k) + Encode(fl, v) + Encode(fl, k) + Encode(fl, u))
         == Success(Dict([Entry(k, Mirror(u))]))
  {
    hide Pop, Encode, Good, Readable, Mirror;
    var last := Encode(fl, k) + Encode(fl, u);
    var all := Encode(fl, k) + Encode(fl, v) + Encode(fl, k) + Encode(fl, u);
    assert all == Encode(fl, k) + (Encode(fl, v) + last);
    KeyRead(fl, k, Encode(fl, v) + last);
    ValueRead(fl, v, last);
    KeyRead(fl, k, Encode(fl, u));
    ValueRead(fl, u, []);
    assert Encode(fl, u) + [] == Encode(fl, u);
    EncodeNotEmpty(fl, k);
    DictPair(fl, all, []);
    DictPair(fl, last, [Entry(k, Mirror(v))]);
    DictPair(fl, [], [Entry(k, Mirror(u))]);
    assert Put([], k, Mirror(v)) == [Entry(k, Mirror(v))];
    assert [Entry(k, Mirror(v))][1..] == [] && Put([Entry(k, Mirror(v))], k, Mirror(u)) == [Entry(k, Mirror(u))];
  }

  lemma KeyRead(fl: Floats, k: Value, r: seq<Byte>)
    requires Good(fl, k) && Hashable(k) && !k.Tuple?
    ensures Pop(fl, Encode(fl, k) + r) == Success((k, r))
  {
    PopEncode(fl, k, r);
  }

  lemma ValueRead(fl: Floats, v: Value, r: seq<Byte>)
    requires Good(fl, v) && Readable(v)
    ensures Pop(fl, Encode(fl, v) + r) == Success((Mirror(v), r))
  {
    PopEncode(fl, v, r);
  }

  // ----- where the readers fail -----

  /** `pop`: the first colon, a length as `int` reads it, and a payload by Python's slices, with all failures. */
  lemma PopCases(fl: Floats, s: seq<Byte>, i: nat)
    requires i <= |s| && 58 !in s[..i] && (i < |s| ==> s[i] == 58)
    ensures i == |s| || PyInt(s[..i]).None? ==> Pop(fl, s) == Failure(BadPrefix)
    ensures i < |s| && PyInt(s[..i]).Some? ==>
      var n, rest := PyInt(s[..i]).value, s[i + 1..];
      if !(-|rest| <= n < |rest|) then Pop(fl, s) == Failure(BadPrefix)
      else
        var k := if n < 0 then |rest| + n else n;
        var v := Parse(fl, rest[k], rest[..k]);
        if v.Failure? then Pop(fl, s) == Failure(v.error)
        else Pop(fl, s) == Success((v.value, if n == -1 then rest else rest[k + 1..]))
  {
    FirstFound(s, 58, i);
    hide PyInt, Parse, Find;
    assert Split(s) == if i == |s| || PyInt(s[..i]).None? then Failure(BadPrefix)
                       else Success((PyInt(s[..i]).value, s[i + 1..]));
    hide Split;
    if i < |s| && PyInt(s[..i]).Some? {
      PopRest(fl, s, PyInt(s[..i]).value, s[i + 1..]);
    }
  }

  lemma PopRest(fl: Floats, s: seq<Byte>, n: int, rest: seq<Byte>)
    requires Split(s) == Success((n, rest))
    ensures
      if !(-|rest| <= n < |rest|) then Pop(fl, s) == Failure(BadPrefix)
      else
        var k := if n < 0 then |rest| + n else n;
        var v := Parse(fl, rest[k], rest[..k]);
        if v.Failure? then Pop(fl, s) == Failure(v.error)
        else Pop(fl, s) == Success((v.value, if n == -1 then rest else rest[k + 1..]))
  {
    hide Split, Parse;
    Slices(rest, n);
    Slices(rest, n + 1);
    hide PyAt, PyTake, PyDrop;
  }

  /** `load`: how many bytes are read, and what is raised or returned, by the number d of digits ahead. */
  lemma LoadCases(fl: Floats, s: seq<Byte>, d: nat)
    requires d <= |s| && (forall i :: 0 <= i < d ==> 48 <= s[i] <= 57) && (d < |s| ==> !(48 <= s[d] <= 57))
    ensures s == [] ==> LoadFrom(fl, s) == (Failure(EmptyFile), 0)
    ensures d > 12 ==> LoadFrom(fl, s) == (Failure(HugePrefix), 13)
    ensures 0 < d == |s| <= 12 ==> LoadFrom(fl, s) == (Failure(BadPrefix), d)
    ensures d <= 12 && d < |s| && (s[d] != 58 || d == 0) ==> LoadFrom(fl, s) == (Failure(BadPrefix), d + 1)
    ensures 0 < d <= 12 && d < |s| && s[d] == 58 ==>
      var n := Decimal(s[..d]);
      n >= 0
      && LoadFrom(fl, s)
         == if |s| <= d + 1 + n then (Failure(NoTag), |s|)
            else (Parse(fl, s[d + 1 + n], s[d + 1..d + 1 + n]), d + 2 + n)
  {
    PrefixCases(s, d);
    hide PrefixFrom, Parse, Decimal;
    if 0 < d <= 12 && d < |s| && s[d] == 58 {
      var n := Decimal(s[..d]);
      assert PrefixFrom(s) == (Success(n), d + 1);
    }
  }

  lemma PrefixCases(s: seq<Byte>, d: nat)
    requires d <= |s| && (forall i :: 0 <= i < d ==> 48 <= s[i] <= 57) && (d < |s| ==> !(48 <= s[d] <= 57))
    ensures 0 < d ==> Decimal(s[..d]) >= 0
    ensures
      PrefixFrom(s)
      == if s == [] then (Failure(EmptyFile), 0)
         else if d > 12 then (Failure(HugePrefix), 13)
         else if d == |s| then (Failure(BadPrefix), d)
         else if s[d] != 58 || d == 0 then (Failure(BadPrefix), d + 1)
         else (Success(Decimal(s[..d])), d + 1)
  {
    LeadingAre(s, d);
    assert DigitsValue(s[..0]).None?;
    if 0 < d {
      PlainValue(s[..d]);
    }
    hide Decimal, DigitsValue, LeadingDigits;
  }

  lemma PlainValue(b: seq<Byte>)
    requires b != [] && AsciiDigits(b)
    ensures Decimal(b) >= 0 && DigitsValue(b) == Some(Decimal(b))
  {
    DigitsValueIs(b);
    PlainUnderscored(b);
    hide Decimal, DigitsValue, Underscored, NoUnderscores;
  }

  lemma {:induction false} LeadingAre(s: seq<Byte>, n: nat)
    requires n <= |s| && (forall i :: 0 <= i < n ==> 48 <= s[i] <= 57) && (n < |s| ==> !(48 <= s[n] <= 57))
    ensures LeadingDigits(s) == n
  {
    if n > 0 {
      LeadingAre(s[1..], n - 1);
    }
  }

  lemma PlainUnderscored(b: seq<Byte>)
    requires b != [] && AsciiDigits(b)
    ensures Underscored(b) && NoUnderscores(b) == b && Decimal(b) >= 0
  {
    PlainKept(b);
  }

  lemma {:induction false} PlainKept(b: seq<Byte>)
    requires AsciiDigits(b)
    ensures NoUnderscores(b) == b && Decimal(b) >= 0
  {
    if b != [] {
      var n := |b| - 1;
      assert b == b[..n] + [b[n]];
      PlainKept(b[..n]);
    }
  }
}
