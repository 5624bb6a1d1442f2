/** However the bytes of a direction are cut into messages, and whenever the view is asked in between, the
    frames collected are those of one pass over all the bytes, each under the message that completed it. */
module Http3Properties {
  import opened Prelude
  import opened Http3

  // ----- one pass -----

  lemma VarIntExtends(a: seq<Byte>, b: seq<Byte>)
    requires VarInt(a).Some?
    ensures VarInt(a + b) == VarInt(a)
  {
    var n := VarLength(a[0]);
    assert (a + b)[1..n] == a[1..n];
  }

  /** A complete frame stays the same when more bytes arrive. */
  lemma FrameAtExtends(a: seq<Byte>, b: seq<Byte>)
    requires FrameAt(a).Some?
    ensures FrameAt(a + b) == FrameAt(a)
    ensures (a + b)[FrameAt(a).value.1..] == a[FrameAt(a).value.1..] + b
  {
    hide VarInt;
    VarIntExtends(a, b);
    var n := VarInt(a).value.1;
    VarIntExtends(a[n..], b);
    assert (a + b)[n..] == a[n..] + b;
    var (kind, size, h) := Header(a).value;
    assert (a + b)[h..h + size] == a[h..h + size];
  }

  /** Reading in two steps, keeping what was left, is reading in one. */
  lemma {:induction false} ParseAppend(a: seq<Byte>, b: seq<Byte>)
    ensures
      var (fs, rest) := ParseAll(a);
      var (gs, left) := ParseAll(rest + b);
      ParseAll(a + b) == (fs + gs, left)
    decreases |a|
  {
    hide FrameAt;
    if FrameAt(a).Some? {
      var (f, n) := FrameAt(a).value;
      FrameAtExtends(a, b);
      ParseAppend(a[n..], b);
      var (fs, rest) := ParseAll(a[n..]);
      var (gs, left) := ParseAll(rest + b);
      assert [f] + (fs + gs) == [f] + fs + gs;
    } else {
      var (gs, left) := ParseAll(a + b);
      assert [] + gs == gs;
    }
  }

  /** The bytes that each frame was cut from. */
  ghost function Slices(b: seq<Byte>): seq<seq<Byte>>
    decreases |b|
  {
    match FrameAt(b)
    case None => []
    case Some((f, n)) => [b[..n]] + Slices(b[n..])
  }

  ghost function Flatten(ss: seq<seq<Byte>>): seq<Byte> {
    if ss == [] then [] else ss[0] + Flatten(ss[1..])
  }

  /** Nothing is lost and nothing is left unread: the slices and the leftover are the input, every slice is
      exactly its frame, and the leftover has no complete frame at its front. */
  lemma Conservation(b: seq<Byte>)
    ensures Flatten(Slices(b)) + ParseAll(b).1 == b
    ensures |Slices(b)| == |ParseAll(b).0|
    ensures forall i :: 0 <= i < |Slices(b)| ==> FrameAt(Slices(b)[i]) == Some((ParseAll(b).0[i], |Slices(b)[i]|))
    ensures FrameAt(ParseAll(b).1).None?
  {
    BytesKept(b);
    SlicesAreFrames(b);
  }

  lemma {:induction false} BytesKept(b: seq<Byte>)
    ensures Flatten(Slices(b)) + ParseAll(b).1 == b
    ensures FrameAt(ParseAll(b).1).None?
    decreases |b|
  {
    hide FrameAt, Slices, ParseAll, Flatten;
    if FrameAt(b).Some? {
      var n := FrameAt(b).value.1;
      BytesKept(b[n..]);
      FirstSlice(b);
      FlattenFirst(b[..n], Slices(b[n..]));
      Joined(b, n, Flatten(Slices(b[n..])), ParseAll(b[n..]).1);
    } else {
      NoSlice(b);
    }
  }

  lemma NoSlice(b: seq<Byte>)
    requires FrameAt(b).None?
    ensures Flatten(Slices(b)) == [] && ParseAll(b) == ([], b)
  {
  }

  lemma FirstSlice(b: seq<Byte>)
    requires FrameAt(b).Some?
    ensures
      var n := FrameAt(b).value.1;
      Slices(b) == [b[..n]] + Slices(b[n..]) && ParseAll(b).1 == ParseAll(b[n..]).1
  {
    hide FrameAt;
  }

  lemma FlattenFirst(s: seq<Byte>, ss: seq<seq<Byte>>)
    ensures Flatten([s] + ss) == s + Flatten(ss)
  {
    assert ([s] + ss)[1..] == ss;
  }

  lemma Joined(b: seq<Byte>, n: nat, middle: seq<Byte>, rest: seq<Byte>)
    requires n <= |b| && middle + rest == b[n..]
    ensures b[..n] + middle + rest == b
  {
    assert b[..n] + middle + rest == b[..n] + (middle + rest);
  }

  lemma {:induction false} SlicesAreFrames(b: seq<Byte>)
    ensures |Slices(b)| == |ParseAll(b).0|
    ensures forall i :: 0 <= i < |Slices(b)| ==> FrameAt(Slices(b)[i]) == Some((ParseAll(b).0[i], |Slices(b)[i]|))
    decreases |b|
  {
    hide FrameAt, Flatten;
    if FrameAt(b).Some? {
      SlicesAreFrames(b[FrameAt(b).value.1..]);
      FrameIsCut(b);
    }
  }

  lemma FrameIsCut(b: seq<Byte>)
    requires FrameAt(b).Some?
    ensures FrameAt(b[..FrameAt(b).value.1]) == FrameAt(b)
  {
    var (kind, size, h) := Header(b).value;
    var n := h + size;
    var k := VarInt(b).value.1;
    hide VarInt;
    VarIntCut(b, n);
    TakeDrop(b, k, n);
    VarIntCut(b[k..], n - k);
    assert b[..n][h..n] == b[h..n];
  }

  lemma TakeDrop(b: seq<Byte>, k: nat, n: nat)
    requires k <= n <= |b|
    ensures b[..n][k..] == b[k..][..n - k]
  {
  }

  lemma VarIntCut(b: seq<Byte>, n: nat)
    requires VarInt(b).Some? && VarInt(b).value.1 <= n <= |b|
    ensures VarInt(b[..n]) == VarInt(b)
  {
    var m := VarLength(b[0]);
    assert b[..n][1..m] == b[1..m];
  }

  // ----- all chunkings -----

  /** All bytes of one direction, in message order. */
  ghost function Received(ms: seq<Message>, dir: bool): seq<Byte> {
    if ms == [] then []
    else
      var m := ms[|ms| - 1];
      Received(ms[..|ms| - 1], dir) + (if m.fromClient == dir then m.content else [])
  }

  /** Whether this direction starts with a stream type. */
  ghost predicate Typed(uni: bool, ms: seq<Message>, dir: bool) {
    uni && ms != [] && ms[0].fromClient == dir
  }

  /** What one pass over all the bytes of a direction finds. */
  ghost function OneShot(uni: bool, ms: seq<Message>, dir: bool): (seq<Frame>, seq<Byte>)
    requires Startable(uni, ms)
  {
    var b := Received(ms, dir);
    if Typed(uni, ms, dir) && VarInt(b).Some? then
      var (kind, n) := VarInt(b).value;
      var (fs, rest) := ParseAll(b[n..]);
      ([StreamType(kind)] + fs, rest)
    else ParseAll(b)
  }

  /** The frames recorded for the messages of one direction, in message order. */
  ghost function Collected(s: State, ms: seq<Message>, dir: bool): seq<Frame> {
    if ms == [] then []
    else
      var n := |ms| - 1;
      Collected(s, ms[..n], dir) + (if ms[n].fromClient == dir then MessageFrames(s, n) else [])
  }

  lemma {:induction false} CollectedFrame(s: State, t: State, ms: seq<Message>, dir: bool)
    requires forall i :: 0 <= i < |ms| ==> MessageFrames(s, i) == MessageFrames(t, i)
    ensures Collected(s, ms, dir) == Collected(t, ms, dir)
  {
    if ms != [] {
      CollectedFrame(s, t, ms[..|ms| - 1], dir);
    }
  }

  /** A message leaves the other buffer, and what was recorded for earlier messages, alone. */
  lemma FeedLocal(s: State, uni: bool, m: Message)
    requires Ready(s, uni, m)
    ensures Buffer(Feed(s, uni, m), !m.fromClient) == Buffer(s, !m.fromClient)
    ensures forall i: nat :: i != s.count ==> MessageFrames(Feed(s, uni, m), i) == MessageFrames(s, i)
  {
  }

  /** What a message adds, after the first of a unidirectional stream. */
  lemma FeedAdds(s: State, uni: bool, m: Message)
    requires Ready(s, uni, m) && !(s.count == 0 && uni)
    ensures
      var (fs, rest) := ParseAll(Buffer(s, m.fromClient) + m.content);
      && Buffer(Feed(s, uni, m), m.fromClient) == rest
      && MessageFrames(Feed(s, uni, m), s.count) == MessageFrames(s, s.count) + fs
  {
    hide ParseAll;
    var (fs, rest) := ParseAll(Buffer(s, m.fromClient) + m.content);
    assert MessageFrames(s, s.count) + [] == MessageFrames(s, s.count);
  }

  lemma FeedFirst(m: Message)
    requires VarInt(m.content).Some?
    ensures Ready(INITIAL, true, m)
    ensures
      var (kind, n) := VarInt(m.content).value;
      var (fs, rest) := ParseAll(m.content[n..]);
      Buffer(Feed(INITIAL, true, m), m.fromClient) == rest
      && MessageFrames(Feed(INITIAL, true, m), 0) == [StreamType(kind)] + fs
  {
    hide ParseAll, VarInt;
    assert [] + m.content == m.content;
    var (kind, n) := VarInt(m.content).value;
    var (fs, rest) := ParseAll(m.content[n..]);
    assert [StreamType(kind)] + [] == [StreamType(kind)];
  }

  lemma {:induction false} NothingAhead(uni: bool, ms: seq<Message>, i: nat)
    requires Startable(uni, ms) && i >= |ms|
    ensures MessageFrames(After(uni, ms), i) == []
  {
    if ms != [] {
      var n := |ms| - 1;
      NothingAhead(uni, ms[..n], i);
      NextState(uni, ms, n);
      assert ms[..n + 1] == ms;
      hide After, Feed, Ready;
      FeedLocal(After(uni, ms[..n]), uni, ms[n]);
    }
  }

  /** What was recorded for a message never changes afterwards. */
  lemma {:induction false} FramesSettle(uni: bool, ms: seq<Message>, k: nat, i: nat)
    requires Startable(uni, ms) && i < k <= |ms|
    ensures Startable(uni, ms[..k])
    ensures MessageFrames(After(uni, ms), i) == MessageFrames(After(uni, ms[..k]), i)
  {
    hide After, Feed, Ready;
    if k < |ms| {
      var n := |ms| - 1;
      FramesSettle(uni, ms[..n], k, i);
      assert ms[..n][..k] == ms[..k];
      NextState(uni, ms, n);
      assert ms[..n + 1] == ms;
      FeedLocal(After(uni, ms[..n]), uni, ms[n]);
    } else {
      assert ms[..k] == ms;
    }
  }

  /** One more message, seen from both directions. */
  lemma OneShotStep(uni: bool, ms: seq<Message>, m: Message, dir: bool)
    requires Startable(uni, ms + [m]) && (ms != [] || !uni)
    ensures Startable(uni, ms)
    ensures m.fromClient != dir ==> OneShot(uni, ms + [m], dir) == OneShot(uni, ms, dir)
    ensures m.fromClient == dir ==>
      var (fs, rest) := OneShot(uni, ms, dir);
      var (gs, left) := ParseAll(rest + m.content);
      OneShot(uni, ms + [m], dir) == (fs + gs, left)
  {
    hide ParseAll, VarInt;
    assert (ms + [m])[..|ms|] == ms;
    var b := Received(ms, dir);
    if ms != [] {
      assert (ms + [m])[0] == ms[0];
    }
    if m.fromClient == dir {
      if Typed(uni, ms, dir) {
        FirstTyped(uni, ms);
        VarIntExtends(b, m.content);
        var (kind, n) := VarInt(b).value;
        assert (b + m.content)[n..] == b[n..] + m.content;
        ParseAppend(b[n..], m.content);
        var (fs, rest) := ParseAll(b[n..]);
        var (gs, left) := ParseAll(rest + m.content);
        assert [StreamType(kind)] + (fs + gs) == [StreamType(kind)] + fs + gs;
      } else {
        ParseAppend(b, m.content);
      }
    } else {
      assert b + [] == b;
    }
  }

  /** The stream type of the first message is at the front of everything received in its direction. */
  lemma {:induction false} FirstTyped(uni: bool, ms: seq<Message>)
    requires uni && ms != [] && Startable(uni, ms)
    ensures VarInt(Received(ms, ms[0].fromClient)) == VarInt(ms[0].content)
  {
    var n := |ms| - 1;
    var dir := ms[0].fromClient;
    if n == 0 {
      assert ms[..0] == [] && [] + ms[0].content == ms[0].content;
    } else {
      FirstTyped(uni, ms[..n]);
      VarIntExtends(Received(ms[..n], dir), if ms[n].fromClient == dir then ms[n].content else []);
    }
  }

  /** Chunking independence: the frames collected for a direction are those of the one pass over its bytes, and
      its buffer holds exactly what that pass leaves over. */
  lemma {:induction false} ChunkingIndependence(uni: bool, ms: seq<Message>, dir: bool)
    requires Startable(uni, ms)
    ensures (Collected(After(uni, ms), ms, dir), Buffer(After(uni, ms), dir)) == OneShot(uni, ms, dir)
  {
    hide ParseAll, VarInt, Ready, Feed, OneShot, Received;
    if ms == [] {
      NothingYet(uni, dir);
    } else {
      var n := |ms| - 1;
      assert ms == ms[..n] + [ms[n]] && ms[..n + 1] == ms;
      if n == 0 && uni {
        FirstChunk(ms[0], dir);
        assert ms == [ms[0]];
      } else {
        ChunkingIndependence(uni, ms[..n], dir);
        NextChunk(uni, ms[..n], ms[n], dir);
      }
    }
  }

  lemma NothingYet(uni: bool, dir: bool)
    ensures Startable(uni, [])
    ensures (Collected(After(uni, []), [], dir), Buffer(After(uni, []), dir)) == OneShot(uni, [], dir)
  {
    NothingInNothing();
  }

  lemma NextChunk(uni: bool, ms: seq<Message>, m: Message, dir: bool)
    requires Startable(uni, ms + [m]) && Startable(uni, ms) && (ms != [] || !uni)
    requires (Collected(After(uni, ms), ms, dir), Buffer(After(uni, ms), dir)) == OneShot(uni, ms, dir)
    ensures
      var t := After(uni, ms + [m]);
      (Collected(t, ms + [m], dir), Buffer(t, dir)) == OneShot(uni, ms + [m], dir)
  {
    hide ParseAll, VarInt, Ready, After, Feed, OneShot, Received, MessageFrames;
    var s, n := After(uni, ms), |ms|;
    assert (ms + [m])[..n] == ms && (ms + [m])[..n + 1] == ms + [m];
    NextState(uni, ms + [m], n);
    NothingAhead(uni, ms, n);
    FeedLocal(s, uni, m);
    CollectedFrame(s, Feed(s, uni, m), ms, dir);
    FeedAdds(s, uni, m);
    OneShotStep(uni, ms, m, dir);
    var fs := ParseAll(Buffer(s, m.fromClient) + m.content).0;
    assert [] + fs == fs;
    assert Collected(s, ms, dir) + [] == Collected(s, ms, dir);
  }

  lemma FirstChunk(m: Message, dir: bool)
    requires VarInt(m.content).Some?
    ensures Startable(true, [m])
    ensures (Collected(After(true, [m]), [m], dir), Buffer(After(true, [m]), dir)) == OneShot(true, [m], dir)
  {
    FeedFirst(m);
    NextState(true, [m], 0);
    assert [m][..0] == [] && [m][..1] == [m];
    FeedLocal(INITIAL, true, m);
    hide ParseAll, VarInt, Ready, After, Feed;
    var s := After(true, [m]);
    assert [] + m.content == m.content;
    assert Collected(s, [m], dir) == [] + (if m.fromClient == dir then MessageFrames(s, 0) else []);
    assert [] + MessageFrames(s, 0) == MessageFrames(s, 0);
    NothingInNothing();
    if m.fromClient == dir {
      assert Received([m], dir) == m.content;
    } else {
      assert Received([m], dir) == [];
      assert Buffer(s, dir) == [];
      assert Collected(s, [m], dir) == [];
    }
  }

  lemma NothingInNothing()
    ensures ParseAll([]) == ([], [])
  {
    assert VarInt([]).None?;
  }

  /** A call that finds the first k messages seen, and all messages there. */
  lemma {:induction false} CallCatchesUp(uni: bool, ms: seq<Message>, k: nat)
    requires Startable(uni, ms) && k <= |ms|
    ensures Startable(uni, ms[..k])
    ensures Loop(After(uni, ms[..k]), uni, ms[k..]) == (After(uni, ms), true)
    decreases |ms| - k
  {
    hide After, Feed, Ready;
    if k < |ms| {
      NextState(uni, ms, k);
      CallCatchesUp(uni, ms, k + 1);
      assert ms[k..][1..] == ms[k + 1..];
    } else {
      assert ms[..k] == ms;
    }
  }

  ghost predicate Schedule(ms: seq<Message>, ks: seq<nat>) {
    forall i :: 0 <= i < |ks| ==> ks[i] <= |ms|
  }

  /** The calls of `prettify` at the times when the first ks[0], ks[1], … of the messages are there: the state after
      them, and whether the last one returned. */
  ghost function Calls(uni: bool, ms: seq<Message>, ks: seq<nat>): (State, bool)
    requires Schedule(ms, ks)
  {
    if ks == [] then (INITIAL, true)
    else
      var n := |ks| - 1;
      var s := Calls(uni, ms, ks[..n]).0;
      Loop(s, uni, PyDrop(ms[..ks[n]], s.count))
  }

  /** The most messages that a call has found. */
  ghost function Latest(ms: seq<Message>, ks: seq<nat>): (k: nat)
    requires Schedule(ms, ks)
    ensures k <= |ms|
  {
    if ks == [] then 0
    else
      var n := |ks| - 1;
      var k := Latest(ms, ks[..n]);
      if ks[n] > k then ks[n] else k
  }

  /** It does not matter when `prettify` is called: after any calls the state is that in which every message found so
      far was seen once, and no call raises. */
  lemma {:induction false} AnySchedule(uni: bool, ms: seq<Message>, ks: seq<nat>)
    requires Startable(uni, ms) && Schedule(ms, ks)
    ensures Startable(uni, ms[..Latest(ms, ks)])
    ensures Calls(uni, ms, ks) == (After(uni, ms[..Latest(ms, ks)]), true)
  {
    hide After, Feed, Ready;
    if ks != [] {
      var n := |ks| - 1;
      AnySchedule(uni, ms, ks[..n]);
      var k := Latest(ms, ks[..n]);
      if ks[n] > k {
        CallCatchesUp(uni, ms[..ks[n]], k);
        assert ms[..ks[n]][..k] == ms[..k];
      } else {
        assert PyDrop(ms[..ks[n]], k) == [];
      }
    } else {
      assert ms[..0] == [] && After(uni, []) == INITIAL by {
        NothingSeen(uni);
      }
    }
  }

  lemma NothingSeen(uni: bool)
    ensures Startable(uni, []) && After(uni, []) == INITIAL
  {
  }

  /** Two ways of cutting the same bytes into messages give the same frames. */
  lemma SameBytesSameFrames(ms: seq<Message>, ns: seq<Message>, dir: bool)
    requires Received(ms, dir) == Received(ns, dir)
    ensures Collected(After(false, ms), ms, dir) == Collected(After(false, ns), ns, dir)
  {
    ChunkingIndependence(false, ms, dir);
    ChunkingIndependence(false, ns, dir);
  }

  /** Each frame is recorded under the message that completes it: what message i adds is what the one pass finds
      after message i and did not find before. */
  lemma RecordedWhenComplete(ms: seq<Message>, i: nat)
    requires i < |ms|
    ensures OneShot(false, ms[..i], ms[i].fromClient).0 + MessageFrames(After(false, ms), i)
         == OneShot(false, ms[..i + 1], ms[i].fromClient).0
  {
    var dir := ms[i].fromClient;
    ChunkingIndependence(false, ms[..i], dir);
    ChunkingIndependence(false, ms[..i + 1], dir);
    FramesSettle(false, ms, i + 1, i);
    assert ms[..i + 1][..i] == ms[..i];
    var s, t := After(false, ms[..i]), After(false, ms[..i + 1]);
    NextState(false, ms, i);
    FeedLocal(s, false, ms[i]);
    CollectedFrame(s, t, ms[..i], dir);
  }

  // ----- from frames to bytes and back -----

  ghost function BigEndianOf(n: nat, k: nat): (r: seq<Byte>)
    ensures |r| == k
  {
    if k == 0 then [] else BigEndianOf(n / 256, k - 1) + [n % 256]
  }

  ghost function Power(k: nat): (p: nat)
    ensures p >= 1
  {
    if k == 0 then 1 else 256 * Power(k - 1)
  }

  lemma {:induction false} BigEndianRead(n: nat, k: nat)
    requires n < Power(k)
    ensures BigEndian(BigEndianOf(n, k)) == n
  {
    if k > 0 {
      BigEndianRead(n / 256, k - 1);
      assert BigEndianOf(n, k)[..k - 1] == BigEndianOf(n / 256, k - 1);
    }
  }

  /** The two top bits of the first byte are free. */
  lemma {:induction false} TopBitsFree(n: nat, k: nat)
    requires k > 0 && n < 64 * Power(k - 1)
    ensures BigEndianOf(n, k)[0] < 64 && n < Power(k)
  {
    if k > 1 {
      TopBitsFree(n / 256, k - 1);
    } else {
      assert Power(1) == 256 * Power(0);
    }
  }

  /** The shortest encoding of an integer below 2^62, as RFC 9000 lays it out. */
  ghost function EncodeVarInt(n: nat): seq<Byte>
    requires n < 64 * Power(7)
  {
    var k := if n < 64 * Power(0) then 1 else if n < 64 * Power(1) then 2 else if n < 64 * Power(3) then 4 else 8;
    TopBitsFree(n, k);
    Mark(BigEndianOf(n, k))
  }

  /** Writes the length into the two top bits. */
  ghost function Mark(b: seq<Byte>): (r: seq<Byte>)
    requires b != [] && b[0] < 64
    ensures |r| == |b| && r[1..] == b[1..] && r[0] % 64 == b[0]
    ensures |b| in {1, 2, 4, 8} ==> VarLength(r[0]) == |b|
  {
    [b[0] + (if |b| == 1 then 0 else if |b| == 2 then 64 else if |b| == 4 then 128 else 192)] + b[1..]
  }

  lemma VarIntRead(n: nat, r: seq<Byte>)
    requires n < 64 * Power(7)
    ensures VarInt(EncodeVarInt(n) + r) == Some((n, |EncodeVarInt(n)|))
  {
    var k := if n < 64 * Power(0) then 1 else if n < 64 * Power(1) then 2 else if n < 64 * Power(3) then 4 else 8;
    TopBitsFree(n, k);
    BigEndianRead(n, k);
    var b := BigEndianOf(n, k);
    var e := Mark(b);
    assert (e + r)[1..k] == b[1..] && [b[0]] + b[1..] == b;
  }

  ghost predicate Encodable(f: Frame) {
    f.Frame? && f.kind < 64 * Power(7) && |f.data| < 64 * Power(7)
  }

  ghost function EncodeFrame(f: Frame): seq<Byte>
    requires Encodable(f)
  {
    EncodeVarInt(f.kind) + EncodeVarInt(|f.data|) + f.data
  }

  ghost function EncodeFrames(fs: seq<Frame>): seq<Byte>
    requires forall f :: f in fs ==> Encodable(f)
  {
    if fs == [] then [] else EncodeFrame(fs[0]) + EncodeFrames(fs[1..])
  }

  lemma FrameRead(f: Frame, r: seq<Byte>)
    requires Encodable(f)
    ensures FrameAt(EncodeFrame(f) + r) == Some((f, |EncodeFrame(f)|))
  {
    hide VarInt, EncodeVarInt, Power;
    var a, b := EncodeVarInt(f.kind), EncodeVarInt(|f.data|);
    var s := EncodeFrame(f) + r;
    assert s == a + (b + f.data + r);
    VarIntRead(f.kind, b + f.data + r);
    assert s[|a|..] == b + (f.data + r);
    VarIntRead(|f.data|, f.data + r);
    assert s[|a| + |b|..|a| + |b| + |f.data|] == f.data;
  }

  lemma {:induction false} FramesRead(fs: seq<Frame>, tail: seq<Byte>)
    requires forall f :: f in fs ==> Encodable(f)
    requires FrameAt(tail).None?
    ensures ParseAll(EncodeFrames(fs) + tail) == (fs, tail)
  {
    hide FrameAt, Encodable, EncodeFrame;
    if fs == [] {
      assert [] + tail == tail;
    } else {
      var rest := EncodeFrames(fs[1..]) + tail;
      var s := EncodeFrames(fs) + tail;
      assert s == EncodeFrame(fs[0]) + rest;
      FrameRead(fs[0], rest);
      assert s[|EncodeFrame(fs[0])|..] == rest;
      FramesRead(fs[1..], tail);
      assert [fs[0]] + fs[1..] == fs;
    }
  }

  /** End to end: whatever frames a peer sends, however its bytes are cut into messages, these very frames are
      collected, and the unfinished rest stays in the buffer. */
  lemma Delivered(fs: seq<Frame>, tail: seq<Byte>, ms: seq<Message>, dir: bool)
    requires forall f :: f in fs ==> Encodable(f)
    requires FrameAt(tail).None? && Received(ms, dir) == EncodeFrames(fs) + tail
    ensures Collected(After(false, ms), ms, dir) == fs && Buffer(After(false, ms), dir) == tail
  {
    FramesRead(fs, tail);
    ChunkingIndependence(false, ms, dir);
  }

  // ----- where the stream type is not yet complete -----

  /** The first call returns exactly when the first message of a unidirectional stream holds the whole stream type. */
  lemma FirstCall(uni: bool, ms: seq<Message>)
    ensures Loop(INITIAL, uni, ms).1 <==> Startable(uni, ms)
  {
    if Startable(uni, ms) {
      CallCatchesUp(uni, ms, 0);
      assert ms[..0] == [] && ms[0..] == ms;
    } else {
      FirstBuffer(ms[0]);
    }
  }

  ghost function Copies(c: seq<Byte>, n: nat): (r: seq<Byte>)
    ensures |r| == n * |c|
    ensures n > 0 ==> c <= r
  {
    if n == 0 then []
    else if n == 1 then c
    else Copies(c, n - 1) + c
  }

  /** Enough calls for a stream type, when each of them adds c again. */
  ghost predicate Enough(c: seq<Byte>, n: nat) {
    c != [] && n * |c| >= VarLength(c[0])
  }

  lemma CopiesRead(c: seq<Byte>, n: nat)
    ensures VarInt(Copies(c, n)).Some? <==> Enough(c, n)
  {
    if c == [] {
      assert n * |c| == 0;
    } else if n > 0 {
      assert Copies(c, n)[0] == c[0];
    }
  }

  /** No message was counted, but the first one was added n times. */
  ghost function Stuck(m: Message, n: nat): State {
    SetBuffer(INITIAL, m.fromClient, Copies(m.content, n))
  }

  lemma StuckMore(m: Message, n: nat)
    ensures Extended(Stuck(m, n), m) == Stuck(m, n + 1)
    ensures Ready(Stuck(m, n), true, m) <==> Enough(m.content, n + 1)
  {
    CopiesRead(m.content, n + 1);
    assert n == 0 ==> [] + m.content == m.content;
  }

  /** What is recorded first for the first message. */
  ghost predicate Starts(s: State, f: Frame) {
    s.count > 0 && MessageFrames(s, 0) != [] && MessageFrames(s, 0)[0] == f
  }

  lemma FeedStarts(m: Message, n: nat)
    requires Enough(m.content, n + 1)
    ensures Ready(Stuck(m, n), true, m)
    ensures VarInt(Copies(m.content, n + 1)).Some?
    ensures Starts(Feed(Stuck(m, n), true, m), StreamType(VarInt(Copies(m.content, n + 1)).value.0))
  {
    StuckMore(m, n);
    CopiesRead(m.content, n + 1);
    hide VarInt, ParseAll;
  }

  /** Once a message was counted, no call raises and the stream type stays. */
  lemma {:induction false} StartsStays(s: State, uni: bool, ms: seq<Message>, f: Frame)
    requires Starts(s, f)
    ensures Loop(s, uni, ms).1 && Starts(Loop(s, uni, ms).0, f)
    decreases |ms|
  {
    if ms != [] {
      FeedLocal(s, uni, ms[0]);
      var t := Feed(s, uni, ms[0]);
      hide Feed;
      StartsStays(t, uni, ms[1..], f);
    }
  }

  lemma StuckCount(m: Message, n: nat)
    ensures Stuck(m, n).count == 0
  {
  }

  /** A call before the stream type was read. */
  lemma RetryOnce(m: Message, n: nat, now: seq<Message>)
    requires now != [] && now[0] == m
    ensures
      var c := m.content;
      var (s, returned) := Loop(Stuck(m, n), true, now);
      if Enough(c, n + 1) then
        returned && VarInt(Copies(c, n + 1)).Some? && Starts(s, StreamType(VarInt(Copies(c, n + 1)).value.0))
      else s == Stuck(m, n + 1) && !returned
  {
    hide Stuck, Copies, Ready, Enough, VarInt, Starts, Feed;
    StuckMore(m, n);
    if Enough(m.content, n + 1) {
      FeedStarts(m, n);
      StartsStays(Feed(Stuck(m, n), true, m), true, now[1..], StreamType(VarInt(Copies(m.content, n + 1)).value.0));
    }
  }

  /** A call after it was read. */
  lemma RetryLater(s: State, m: Message, n: nat, now: seq<Message>)
    requires Enough(m.content, n)
    requires VarInt(Copies(m.content, n)).Some? && Starts(s, StreamType(VarInt(Copies(m.content, n)).value.0))
    ensures
      var c := m.content;
      && Enough(c, n + 1) && VarInt(Copies(c, n + 1)).Some?
      && Loop(s, true, now).1 && Starts(Loop(s, true, now).0, StreamType(VarInt(Copies(c, n + 1)).value.0))
  {
    var c := m.content;
    assert n > 0;
    assert (n + 1) * |c| >= n * |c|;
    assert Copies(c, n + 1) == Copies(c, n) + c;
    VarIntExtends(Copies(c, n), c);
    hide VarInt, Copies, Starts, Loop;
    StartsStays(s, true, now, StreamType(VarInt(Copies(c, n)).value.0));
  }

  /** If the first message does not hold the whole stream type, each call adds its bytes again and raises, until they
      are enough; that call returns, and records the stream type read from the copies, which stays. No number of calls
      is enough for an empty first message. */
  lemma {:induction false} Retries(ms: seq<Message>, ks: seq<nat>)
    requires !Startable(true, ms) && Schedule(ms, ks) && forall i :: 0 <= i < |ks| ==> ks[i] > 0
    ensures
      var c := ms[0].content;
      var (s, returned) := Calls(true, ms, ks);
      if Enough(c, |ks|) then
        returned && VarInt(Copies(c, |ks|)).Some? && Starts(s, StreamType(VarInt(Copies(c, |ks|)).value.0))
      else s == Stuck(ms[0], |ks|) && (ks != [] ==> !returned)
  {
    if ks != [] {
      var n := |ks| - 1;
      Retries(ms, ks[..n]);
      var s, now := Calls(true, ms, ks[..n]).0, ms[..ks[n]];
      hide Enough, Stuck, Starts, Loop, VarInt, Copies;
      if Enough(ms[0].content, n) {
        RetryLater(s, ms[0], n, PyDrop(now, s.count));
      } else {
        StuckCount(ms[0], n);
        assert PyDrop(now, 0) == now;
        RetryOnce(ms[0], n, now);
      }
    }
  }

  lemma {:induction false} BigEndianInjective(a: seq<Byte>, b: seq<Byte>)
    requires |a| == |b|
    ensures BigEndian(a) == BigEndian(b) <==> a == b
  {
    if a != [] {
      var n := |a| - 1;
      BigEndianInjective(a[..n], b[..n]);
      assert a == a[..n] + [a[n]] && b == b[..n] + [b[n]];
    }
  }

  lemma {:induction false} FirstReceived(ms: seq<Message>)
    requires ms != []
    ensures ms[0].content <= Received(ms, ms[0].fromClient)
  {
    if |ms| > 1 {
      FirstReceived(ms[..|ms| - 1]);
    } else {
      assert ms[..0] == [];
    }
  }

  /** The type so recorded is the one at the front of all bytes of this direction exactly when these begin like the
      copies, as far as the type goes. */
  lemma RetriesRight(ms: seq<Message>, n: nat)
    requires !Startable(true, ms) && Enough(ms[0].content, n)
    ensures
      var c, all := ms[0].content, Received(ms, ms[0].fromClient);
      var k := VarLength(c[0]);
      VarInt(Copies(c, n)).Some?
      && (VarInt(all).Some? && VarInt(all).value.0 == VarInt(Copies(c, n)).value.0
          <==> k <= |all| && all[..k] == Copies(c, n)[..k])
  {
    var c, all := ms[0].content, Received(ms, ms[0].fromClient);
    var k, b := VarLength(c[0]), Copies(ms[0].content, n);
    CopiesRead(c, n);
    FirstReceived(ms);
    assert all[0] == c[0] && (n > 0 ==> b[0] == c[0]);
    if k <= |all| {
      var x, y := [c[0] % 64] + all[1..k], [c[0] % 64] + b[1..k];
      BigEndianInjective(x, y);
      assert x[1..] == all[1..k] && y[1..] == b[1..k];
      assert all[..k] == [c[0]] + all[1..k] && b[..k] == [c[0]] + b[1..k];
    }
  }

  /** A wrong type: 0x40 0x01 is the type 1, but when the first byte arrives alone and is asked about, the next call
      reads 0x40 0x40. */
  lemma RetryWrong(dir: bool)
    ensures
      var ms := [Message(dir, [0x40]), Message(dir, [0x01])];
      && VarInt(Received(ms, dir)) == Some((1, 2))
      && Starts(Calls(true, ms, [1, 2]).0, StreamType(0x40))
  {
    hide Calls, Starts, Loop, BigEndian, Received;
    var ms := [Message(dir, [0x40]), Message(dir, [0x01])];
    var ks: seq<nat> := [1, 2];
    TwoBytes(0x40);
    TwoBytes(1);
    assert Copies([0x40], 2) == [0x40, 0x40] by {
      assert Copies([0x40], 1) == [0x40];
    }
    Retries(ms, ks);
    TwoReceived(ms[0], ms[1]);
    assert ms[0].content + ms[1].content == [0x40, 0x01];
  }

  lemma OneReceived(m: Message)
    ensures Received([m], m.fromClient) == m.content
  {
    assert [m][..0] == [] && [] + m.content == m.content;
  }

  lemma TwoReceived(m: Message, n: Message)
    requires m.fromClient == n.fromClient
    ensures Received([m, n], m.fromClient) == m.content + n.content
  {
    OneReceived(m);
    assert [m, n][..1] == [m];
  }

  lemma TwoBytes(b: Byte)
    ensures VarInt([0x40, b]) == Some((b as int, 2))
  {
    var t: seq<Byte> := [0x40, b];
    assert [t[0] % 64] + t[1..2] == [0, b];
    assert BigEndian([0]) == 0 && [0, b][..1] == [0];
  }
}
