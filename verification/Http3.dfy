/** The incremental HTTP/3 frame splitter of mitmproxy/contentviews/_view_http3.py. A frame is laid out as in
    section 7.1 of RFC 9114, with the variable-length integers of section 16 of RFC 9000. */
module Http3 {
  import opened Prelude

  datatype Frame =
    | Frame(kind: nat, data: seq<Byte>)
    | StreamType(kind: nat)

  datatype Message = Message(fromClient: bool, content: seq<Byte>)

  // ----- one frame -----

  function BigEndian(b: seq<Byte>): nat {
    if b == [] then 0 else BigEndian(b[..|b| - 1]) * 256 + b[|b| - 1]
  }

  /** The length of a variable-length integer, from the two top bits of its first byte. */
  function VarLength(first: Byte): (n: nat)
    ensures 1 <= n <= 8
  {
    if first < 64 then 1 else if first < 128 then 2 else if first < 192 then 4 else 8
  }

  /** The value and the length of the integer at the front; None is a BufferReadError. */
  function VarInt(b: seq<Byte>): (r: Option<(nat, nat)>)
    ensures r.Some? ==> 1 <= r.value.1 <= 8 && r.value.1 <= |b|
  {
    if b == [] || |b| < VarLength(b[0]) then None
    else
      var n := VarLength(b[0]);
      Some((BigEndian([b[0] % 64] + b[1..n]), n))
  }

  /** The type and the size of the frame at the front, and the length of this header. */
  function Header(b: seq<Byte>): (r: Option<(nat, nat, nat)>)
    ensures r.Some? ==> 2 <= r.value.2 <= 16 && r.value.2 <= |b|
  {
    match VarInt(b)
    case None => None
    case Some((kind, n)) =>
      match VarInt(b[n..])
      case None => None
      case Some((size, m)) => Some((kind, size, n + m))
  }

  /** The complete frame at the front, and the number of its bytes. */
  function FrameAt(b: seq<Byte>): (r: Option<(Frame, nat)>)
    ensures r.Some? ==> 2 <= r.value.1 <= |b|
  {
    match Header(b)
    case None => None
    case Some((kind, size, n)) => if |b| < n + size then None else Some((Frame(kind, b[n..n + size]), n + size))
  }

  /** All complete frames, read in one go, and what is left. */
  function ParseAll(b: seq<Byte>): (seq<Frame>, seq<Byte>)
    decreases |b|
  {
    match FrameAt(b)
    case None => ([], b)
    case Some((f, n)) => var (fs, rest) := ParseAll(b[n..]); ([f] + fs, rest)
  }

  // ----- the connection state -----

  datatype State = State(count: nat, frames: map<nat, seq<Frame>>, client: seq<Byte>, server: seq<Byte>)

  const INITIAL := State(0, map[], [], [])

  function Buffer(s: State, fromClient: bool): seq<Byte> {
    if fromClient then s.client else s.server
  }

  function SetBuffer(s: State, fromClient: bool, b: seq<Byte>): State {
    if fromClient then s.(client := b) else s.(server := b)
  }

  function MessageFrames(s: State, i: nat): seq<Frame> {
    if i in s.frames then s.frames[i] else []
  }

  /** `buf += message.content` */
  function Extended(s: State, m: Message): State {
    SetBuffer(s, m.fromClient, Buffer(s, m.fromClient) + m.content)
  }

  /** The first message of a unidirectional stream must let its stream type be read. */
  predicate Ready(s: State, uni: bool, m: Message) {
    s.count == 0 && uni ==> VarInt(Buffer(Extended(s, m), m.fromClient)).Some?
  }

  /** One turn of the loop over the messages. */
  function Feed(s: State, uni: bool, m: Message): State
    requires Ready(s, uni, m)
  {
    var t := Extended(s, m);
    var u := if s.count == 0 && uni then ReadType(t, m.fromClient) else t;
    var (fs, rest) := ParseAll(Buffer(u, m.fromClient));
    var v := SetBuffer(u, m.fromClient, rest);
    v.(count := s.count + 1, frames := Record(v.frames, s.count, fs))
  }

  /** Appends the frames completed by message i. */
  function Record(frames: map<nat, seq<Frame>>, i: nat, fs: seq<Frame>): map<nat, seq<Frame>> {
    if fs == [] then frames
    else frames[i := (if i in frames then frames[i] else []) + fs]
  }

  lemma RecordNone(frames: map<nat, seq<Frame>>, i: nat)
    ensures Record(frames, i, []) == frames
  {
  }

  lemma RecordOne(frames: map<nat, seq<Frame>>, i: nat, fs: seq<Frame>, f: Frame)
    ensures Record(frames, i, fs + [f]) == Record(Record(frames, i, fs), i, [f])
  {
    var known := if i in frames then frames[i] else [];
    assert known + (fs + [f]) == known + fs + [f];
    assert frames[i := known + fs][i := known + fs + [f]] == frames[i := known + fs + [f]];
    assert fs == [] ==> fs + [f] == [f];
  }

  function ReadType(s: State, fromClient: bool): State
    requires VarInt(Buffer(s, fromClient)).Some?
  {
    var b := Buffer(s, fromClient);
    var (kind, n) := VarInt(b).value;
    SetBuffer(s, fromClient, b[n..]).(frames := s.frames[0 := [StreamType(kind)]])
  }

  predicate Startable(uni: bool, ms: seq<Message>) {
    uni && ms != [] ==> VarInt(ms[0].content).Some?
  }

  lemma FirstBuffer(m: Message)
    ensures Buffer(Extended(INITIAL, m), m.fromClient) == m.content
  {
  }

  /** The state after the messages were seen once each. */
  function After(uni: bool, ms: seq<Message>): (s: State)
    requires Startable(uni, ms)
    ensures s.count == |ms|
  {
    if ms == [] then INITIAL
    else
      var s := After(uni, ms[..|ms| - 1]);
      var m := ms[|ms| - 1];
      FirstBuffer(m);
      hide VarInt, ParseAll;
      Feed(s, uni, m)
  }

  /** The loop over the messages; false stands for the exception that leaves it. */
  function Loop(s: State, uni: bool, ms: seq<Message>): (State, bool)
    decreases |ms|
  {
    if ms == [] then (s, true)
    else if !Ready(s, uni, ms[0]) then (Extended(s, ms[0]), false)
    else Loop(Feed(s, uni, ms[0]), uni, ms[1..])
  }

  // ----- the code -----

  class ByteArray {
    var data: seq<Byte>

    constructor ()
      ensures data == []
    {
      data := [];
    }

    method Extend(more: seq<Byte>)
      modifies this
      ensures data == old(data) + more
    {
      data := data + more;
    }

    method DeleteFirst(n: nat)
      requires n <= |data|
      modifies this
      ensures data == old(data)[n..]
    {
      data := data[n..];
    }
  }

  class ConnectionState {
    var messageCount: nat
    var frames: map<nat, seq<Frame>>
    const clientBuf: ByteArray
    const serverBuf: ByteArray

    ghost predicate Valid() {
      clientBuf != serverBuf
    }

    ghost function Model(): State
      reads this, clientBuf, serverBuf
    {
      State(messageCount, frames, clientBuf.data, serverBuf.data)
    }

    constructor ()
      ensures Valid() && Model() == INITIAL && fresh(clientBuf) && fresh(serverBuf)
    {
      messageCount, frames := 0, map[];
      clientBuf := new ByteArray();
      serverBuf := new ByteArray();
    }

    /** The frame at the front, found by peeking at the first 16 bytes for its header. */
    method NextFrame(buf: ByteArray) returns (r: Option<(Frame, nat)>)
      ensures r == FrameAt(buf.data)
    {
      WindowIsEnough(buf.data);
      var h := Header(PyTake(buf.data, 16));
      if h.None? {
        return None;
      }
      var (kind, size, consumed) := h.value;
      if |buf.data| < consumed + size {
        return None;
      }
      r := Some((Frame(kind, buf.data[consumed..consumed + size]), consumed + size));
    }

    /** One turn of the inner loop; false leaves it. */
    method TakeFrame(buf: ByteArray) returns (found: bool)
      requires Valid() && (buf == clientBuf || buf == serverBuf)
      modifies this`frames, buf
      ensures found == FrameAt(old(buf.data)).Some?
      ensures found ==>
        var (f, n) := FrameAt(old(buf.data)).value;
        buf.data == old(buf.data)[n..] && frames == Record(old(frames), messageCount, [f])
      ensures !found ==> buf.data == old(buf.data) && frames == old(frames)
    {
      hide FrameAt;
      var next := NextFrame(buf);
      if next.None? {
        return false;
      }
      var (frame, n) := next.value;
      var known := if messageCount in frames then frames[messageCount] else [];
      frames := frames[messageCount := known + [frame]];
      buf.DeleteFirst(n);
      found := true;
    }

    /** The inner loop. */
    method SplitFrames(buf: ByteArray)
      requires Valid() && (buf == clientBuf || buf == serverBuf)
      modifies this`frames, buf
      ensures buf.data == ParseAll(old(buf.data)).1
      ensures frames == Record(old(frames), messageCount, ParseAll(old(buf.data)).0)
    {
      hide FrameAt, Record;
      ghost var all := ParseAll(buf.data);
      ghost var done: seq<Frame> := [];
      RecordNone(frames, messageCount);
      assert done + ParseAll(buf.data).0 == ParseAll(buf.data).0;
      while true
        invariant all == (done + ParseAll(buf.data).0, ParseAll(buf.data).1)
        invariant frames == Record(old(frames), messageCount, done)
        decreases |buf.data|
      {
        ghost var b := buf.data;
        var found := TakeFrame(buf);
        if !found {
          break;
        }
        ghost var f := FrameAt(b).value.0;
        RecordOne(old(frames), messageCount, done, f);
        assert done + ([f] + ParseAll(buf.data).0) == done + [f] + ParseAll(buf.data).0;
        done := done + [f];
      }
      assert done + [] == done;
    }

    /** One turn of the loop over the messages; false is an uncaught BufferReadError. */
    method ProcessMessage(m: Message, uni: bool) returns (ok: bool)
      requires Valid()
      modifies this`messageCount, this`frames, clientBuf, serverBuf
      ensures ok == Ready(old(Model()), uni, m)
      ensures ok ==> Model() == Feed(old(Model()), uni, m)
      ensures !ok ==> Model() == Extended(old(Model()), m)
    {
      var buf := if m.fromClient then clientBuf else serverBuf;
      buf.Extend(m.content);
      if messageCount == 0 && uni {
        VarIntWindow(buf.data, 8);
        var t := VarInt(PyTake(buf.data, 8));
        if t.None? {
          return false;
        }
        buf.DeleteFirst(t.value.1);
        frames := frames[0 := [StreamType(t.value.0)]];
      }
      SplitFrames(buf);
      messageCount := messageCount + 1;
      ok := true;
    }

    /** `prettify`, which may be called at any time with the messages seen by then; its answer are the frames
        recorded for the message it is asked about, or None for the uncaught BufferReadError. */
    method Prettify(messages: seq<Message>, uni: bool, asked: nat) returns (r: Option<seq<Frame>>)
      requires Valid()
      modifies this`messageCount, this`frames, clientBuf, serverBuf
      ensures (Model(), r.Some?) == Loop(old(Model()), uni, PyDrop(messages, old(messageCount)))
      ensures r.Some? ==> r.value == MessageFrames(Model(), asked)
    {
      hide Feed, Ready, Extended;
      var todo := PyDrop(messages, messageCount);
      for i := 0 to |todo|
        invariant Loop(old(Model()), uni, todo) == Loop(Model(), uni, todo[i..])
      {
        assert todo[i..][1..] == todo[i + 1..];
        var ok := ProcessMessage(todo[i], uni);
        if !ok {
          return None;
        }
      }
      r := Some(if asked in frames then frames[asked] else []);
    }
  }

  lemma NextState(uni: bool, ms: seq<Message>, i: nat)
    requires i < |ms| && Startable(uni, ms)
    ensures Ready(After(uni, ms[..i]), uni, ms[i])
    ensures After(uni, ms[..i + 1]) == Feed(After(uni, ms[..i]), uni, ms[i])
  {
    assert ms[..i + 1][..i] == ms[..i];
    var s := After(uni, ms[..i]);
    assert s == INITIAL ==> Buffer(Extended(s, ms[i]), ms[i].fromClient) == ms[i].content;
  }

  // ----- the window -----

  /** Only the first bytes matter to an integer. */
  lemma VarIntWindow(b: seq<Byte>, w: nat)
    requires w >= 8
    ensures VarInt(PyTake(b, w)) == VarInt(b)
  {
    if |b| <= w {
      assert PyTake(b, w) == b;
    } else {
      assert PyTake(b, w)[0] == b[0];
      assert PyTake(b, w)[1..VarLength(b[0])] == b[1..VarLength(b[0])];
    }
  }

  lemma WindowIsEnough(b: seq<Byte>)
    ensures Header(PyTake(b, 16)) == Header(b)
  {
    VarIntWindow(b, 16);
    if VarInt(b).Some? {
      var n := VarInt(b).value.1;
      VarIntWindow(b[n..], 16 - n);
      assert PyTake(b, 16)[n..] == PyTake(b[n..], 16 - n);
    }
  }
}
