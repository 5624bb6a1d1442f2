/** The body codecs of mitmproxy/net/encoding.py with their shared cache of one cell, which serves decoding and
    encoding alike. The compression libraries and Python's own codecs are parameters. */
module Encoding {
  import opened Prelude

  datatype Content = Bytes(data: seq<Byte>) | Text(text: string)

  datatype Error = TypeError | ValueError

  /** What the libraries do; Failure tells whether they raise a TypeError or something else. */
  datatype Libraries = Libraries(
    lower: string -> string,
    compress: (string, Content) -> Result<Content, Error>,
    decompress: (string, Content) -> Result<Content, Error>,
    codecsEncode: (Content, string, string) -> Result<Content, Error>,
    codecsDecode: (Content, string, string) -> Result<Content, Error>)

  datatype Cell = Cell(encoded: Content, encoding: string, errors: string, decoded: Content)

  const COMPRESSED: set<string> := {"gzip", "deflate", "deflateraw", "br", "zstd"}
  const IDENTITY: set<string> := {"none", "identity"}

  predicate IsEmpty(c: Content) {
    c == Bytes([]) || c == Text("")
  }

  /** `decode_gzip` and its like: an empty body of either type decodes to no bytes. */
  function Decompress(l: Libraries, encoding: string, c: Content): Result<Content, Error> {
    if IsEmpty(c) then Success(Bytes([])) else l.decompress(encoding, c)
  }

  /** `decode` without its cache; `encoding` is in lower case. */
  function PlainDecode(l: Libraries, c: Content, encoding: string, errors: string): Result<Content, Error> {
    if encoding in IDENTITY then Success(c)
    else if encoding in COMPRESSED then Decompress(l, encoding, c)
    else l.codecsDecode(c, encoding, errors)
  }

  /** `encode` without its cache. */
  function PlainEncode(l: Libraries, c: Content, encoding: string, errors: string): Result<Content, Error> {
    if encoding in IDENTITY then Success(c)
    else if encoding in COMPRESSED then l.compress(encoding, c)
    else l.codecsEncode(c, encoding, errors)
  }

  /** The cell after a call that computed a pair. */
  function Remember(
    cell: Option<Cell>, encoded: Content, encoding: string, errors: string, decoded: Content): Option<Cell>
  {
    if encoding in COMPRESSED then Some(Cell(encoded, encoding, errors, decoded)) else cell
  }

  predicate DecodeHit(cell: Option<Cell>, c: Content, encoding: string, errors: string) {
    c.Bytes? && cell.Some? && cell.value.encoded == c && cell.value.encoding == encoding && cell.value.errors == errors
  }

  predicate EncodeHit(cell: Option<Cell>, c: Content, encoding: string, errors: string) {
    c.Bytes? && cell.Some? && cell.value.decoded == c && cell.value.encoding == encoding && cell.value.errors == errors
  }

  function CachedDecode(l: Libraries, cell: Option<Cell>, c: Content, encoding: string, errors: string)
    : (Option<Cell>, Result<Content, Error>)
  {
    if DecodeHit(cell, c, encoding, errors) then (cell, Success(cell.value.decoded))
    else
      var r := PlainDecode(l, c, encoding, errors);
      (if r.Success? then Remember(cell, c, encoding, errors, r.value) else cell, r)
  }

  function CachedEncode(l: Libraries, cell: Option<Cell>, c: Content, encoding: string, errors: string)
    : (Option<Cell>, Result<Content, Error>)
  {
    if EncodeHit(cell, c, encoding, errors) then (cell, Success(cell.value.encoded))
    else
      var r := PlainEncode(l, c, encoding, errors);
      (if r.Success? then Remember(cell, r.value, encoding, errors, c) else cell, r)
  }

  // ----- the code -----

  /** The module with its global `_cache`. None as content is passed through. */
  class Module {
    var cache: Option<Cell>
    const l: Libraries

    constructor (l: Libraries)
      ensures cache == None && this.l == l
    {
      cache := None;
      this.l := l;
    }

    method Decode(encoded: Option<Content>, encoding: string, errors: string)
      returns (r: Result<Option<Content>, Error>)
      modifies this`cache
      ensures encoded.None? ==> r == Success(None) && cache == old(cache)
      ensures encoded.Some? ==>
        var (cell, result) := CachedDecode(l, old(cache), encoded.value, l.lower(encoding), errors);
        cache == cell && (if result.Success? then r == Success(Some(result.value)) else r == Failure(result.error))
    {
      if encoded.None? {
        return Success(None);
      }
      var e := l.lower(encoding);
      if DecodeHit(cache, encoded.value, e, errors) {
        return Success(Some(cache.value.decoded));
      }
      var decoded := PlainDecode(l, encoded.value, e, errors);
      if decoded.Failure? {
        return Failure(decoded.error);
      }
      if e in COMPRESSED {
        cache := Some(Cell(encoded.value, e, errors, decoded.value));
      }
      r := Success(Some(decoded.value));
    }

    method Encode(decoded: Option<Content>, encoding: string, errors: string)
      returns (r: Result<Option<Content>, Error>)
      modifies this`cache
      ensures decoded.None? ==> r == Success(None) && cache == old(cache)
      ensures decoded.Some? ==>
        var (cell, result) := CachedEncode(l, old(cache), decoded.value, l.lower(encoding), errors);
        cache == cell && (if result.Success? then r == Success(Some(result.value)) else r == Failure(result.error))
    {
      if decoded.None? {
        return Success(None);
      }
      var e := l.lower(encoding);
      if EncodeHit(cache, decoded.value, e, errors) {
        return Success(Some(cache.value.encoded));
      }
      var encoded := PlainEncode(l, decoded.value, e, errors);
      if encoded.Failure? {
        return Failure(encoded.error);
      }
      if e in COMPRESSED {
        cache := Some(Cell(encoded.value, e, errors, decoded.value));
      }
      r := Success(Some(encoded.value));
    }
  }

  // ----- what the cache may change -----

  /** Uncached decompression undoes uncached compression. */
  ghost predicate Inverse(l: Libraries) {
    forall e, c :: e in COMPRESSED && l.compress(e, c).Success? ==>
      Decompress(l, e, l.compress(e, c).value) == Success(c)
  }

  /** The cell holds a pair that uncached decoding confirms, whichever direction filled it. */
  ghost predicate CellOk(l: Libraries, cell: Option<Cell>) {
    cell.Some? ==>
      && cell.value.encoding in COMPRESSED
      && Decompress(l, cell.value.encoding, cell.value.encoded) == Success(cell.value.decoded)
  }

  datatype Call =
    | Decodes(c: Content, encoding: string, errors: string)
    | Encodes(c: Content, encoding: string, errors: string)

  ghost function Outcome(l: Libraries, cell: Option<Cell>, call: Call): (Option<Cell>, Result<Content, Error>) {
    match call
    case Decodes(c, e, errors) => CachedDecode(l, cell, c, l.lower(e), errors)
    case Encodes(c, e, errors) => CachedEncode(l, cell, c, l.lower(e), errors)
  }

  ghost function Run(l: Libraries, calls: seq<Call>): Option<Cell> {
    if calls == [] then None
    else Outcome(l, Run(l, calls[..|calls| - 1]), calls[|calls| - 1]).0
  }

  lemma {:induction false} RunKeepsCell(l: Libraries, calls: seq<Call>)
    requires Inverse(l)
    ensures CellOk(l, Run(l, calls))
  {
    if calls != [] {
      var n := |calls| - 1;
      RunKeepsCell(l, calls[..n]);
      var call := calls[n];
      if call.Encodes? {
        var e := l.lower(call.encoding);
        assert e in COMPRESSED && l.compress(e, call.c).Success?
          ==> Decompress(l, e, l.compress(e, call.c).value) == Success(call.c);
      }
    }
  }

  /** After any calls, cached decoding answers exactly what uncached decoding would. */
  lemma {:induction false} DecodeRefines(l: Libraries, calls: seq<Call>, c: Content, encoding: string, errors: string)
    requires Inverse(l)
    ensures CachedDecode(l, Run(l, calls), c, encoding, errors).1 == PlainDecode(l, c, encoding, errors)
  {
    RunKeepsCell(l, calls);
  }

  /** After any calls, cached encoding succeeds at least where uncached encoding does, and what it answers decodes to
      its input; outside the compressions it answers exactly what uncached encoding would. */
  lemma {:induction false} EncodeRefines(l: Libraries, calls: seq<Call>, c: Content, encoding: string, errors: string)
    requires Inverse(l)
    ensures
      var r := CachedEncode(l, Run(l, calls), c, encoding, errors).1;
      && (PlainEncode(l, c, encoding, errors).Success? ==> r.Success?)
      && (encoding in COMPRESSED && r.Success? ==> PlainDecode(l, r.value, encoding, errors) == Success(c))
      && (encoding !in COMPRESSED || r.Failure? ==> r == PlainEncode(l, c, encoding, errors))
  {
    RunKeepsCell(l, calls);
  }

  // ----- bytes -----

  ghost predicate CompressesToBytes(l: Libraries) {
    forall e, c :: l.compress(e, c).Success? ==> l.compress(e, c).value.Bytes?
  }

  /** The libraries raise when they are to decompress a text. */
  ghost predicate RejectsText(l: Libraries) {
    forall e, t :: t != "" ==> l.decompress(e, Text(t)).Failure?
  }

  /** The call decodes the empty text under this compression. */
  ghost predicate Plants(l: Libraries, call: Call, encoding: string, errors: string) {
    call.Decodes? && call.c == Text("") && l.lower(call.encoding) == encoding && call.errors == errors
  }

  /** The call does not refill the cell: it is no compression, or it raises, or it encodes no bytes in the same way. */
  ghost predicate Passes(l: Libraries, call: Call, encoding: string, errors: string) {
    var e := l.lower(call.encoding);
    || e !in COMPRESSED
    || (call.Decodes? && Decompress(l, e, call.c).Failure?)
    || (call.Encodes? && l.compress(e, call.c).Failure?)
    || (call.Encodes? && call.c == Bytes([]) && e == encoding && call.errors == errors)
  }

  /** Some call decoded the empty text under this compression, and no later call refilled the cell. */
  ghost predicate Planted(l: Libraries, calls: seq<Call>, encoding: string, errors: string) {
    exists i :: 0 <= i < |calls| && Plants(l, calls[i], encoding, errors)
      && forall j :: i < j < |calls| ==> Passes(l, calls[j], encoding, errors)
  }

  lemma PlantedStep(l: Libraries, calls: seq<Call>, encoding: string, errors: string)
    requires calls != []
    ensures
      var n := |calls| - 1;
      Planted(l, calls, encoding, errors) <==>
        || Plants(l, calls[n], encoding, errors)
        || (Planted(l, calls[..n], encoding, errors) && Passes(l, calls[n], encoding, errors))
  {
    var n := |calls| - 1;
    var before := calls[..n];
    if Planted(l, before, encoding, errors) && Passes(l, calls[n], encoding, errors) {
      var i :| 0 <= i < n && Plants(l, before[i], encoding, errors)
        && forall j :: i < j < n ==> Passes(l, before[j], encoding, errors);
      assert Plants(l, calls[i], encoding, errors);
      assert forall j :: i < j < n ==> calls[j] == before[j];
    }
    if Planted(l, calls, encoding, errors) && !Plants(l, calls[n], encoding, errors) {
      var i :| 0 <= i <= n && Plants(l, calls[i], encoding, errors)
        && forall j :: i < j <= n ==> Passes(l, calls[j], encoding, errors);
      assert Plants(l, before[i], encoding, errors);
      assert forall j :: i < j < n ==> before[j] == calls[j];
    }
  }

  /** The cell answers with a text exactly when it is planted. */
  lemma {:induction false} TextCell(l: Libraries, calls: seq<Call>, encoding: string, errors: string)
    requires CompressesToBytes(l) && RejectsText(l) && encoding in COMPRESSED
    ensures
      var cell := Run(l, calls);
      && (cell.Some? && cell.value.encoded.Text? ==> cell.value.encoded == Text("") && cell.value.decoded == Bytes([]))
      && (Planted(l, calls, encoding, errors) <==> cell == Some(Cell(Text(""), encoding, errors, Bytes([]))))
  {
    if calls != [] {
      var n := |calls| - 1;
      TextCell(l, calls[..n], encoding, errors);
      PlantedStep(l, calls, encoding, errors);
      var call := calls[n];
      var e := l.lower(call.encoding);
      hide Planted;
      if call.Decodes? && e in COMPRESSED && call.c.Text? && call.c.text != "" {
        assert l.decompress(e, Text(call.c.text)).Failure?;
      }
    }
  }

  /** After any calls, cached compression answers with a text exactly when it is given no bytes after the empty text
      was decoded under the same compression and error handling and nothing has refilled the cell since. */
  lemma {:induction false} EncodeGivesBytes(
    l: Libraries, calls: seq<Call>, c: Content, encoding: string, errors: string)
    requires CompressesToBytes(l) && RejectsText(l) && encoding in COMPRESSED
    ensures
      var r := CachedEncode(l, Run(l, calls), c, encoding, errors).1;
      r.Success? && !r.value.Bytes? <==> c == Bytes([]) && Planted(l, calls, encoding, errors)
  {
    TextCell(l, calls, encoding, errors);
  }

  /** One call is enough: after decoding the empty text, encoding no bytes answers with that text. */
  lemma EmptyTextComesBack(l: Libraries, errors: string)
    requires l.lower("gzip") == "gzip"
    ensures
      var cell := Run(l, [Decodes(Text(""), "gzip", errors)]);
      CachedEncode(l, cell, Bytes([]), "gzip", errors).1 == Success(Text(""))
  {
    var calls := [Decodes(Text(""), "gzip", errors)];
    assert calls[..0] == [] && Run(l, []) == None;
  }

  // ----- what the answers are -----

  /** What a compression makes of a body: an empty one decodes to no bytes without the library. */
  ghost function Decompressed(l: Libraries, encoding: string, c: Content): Result<Content, Error> {
    if c == Bytes([]) || c == Text("") then Success(Bytes([])) else l.decompress(encoding, c)
  }

  /** Decoding after any calls, for every name of an encoding, in whatever case. */
  lemma {:induction false} DecodeAnswers(l: Libraries, calls: seq<Call>, c: Content, encoding: string, errors: string)
    requires Inverse(l)
    ensures
      var e, r := l.lower(encoding), Outcome(l, Run(l, calls), Decodes(c, encoding, errors)).1;
      r == if e == "none" || e == "identity" then Success(c)
           else if e == "gzip" || e == "deflate" || e == "deflateraw" || e == "br" || e == "zstd" then
             Decompressed(l, e, c)
           else l.codecsDecode(c, e, errors)
  {
    hide Run;
    DecodeRefines(l, calls, c, l.lower(encoding), errors);
  }

  /** Encoding after any calls: a compression gives what the library gives, or, out of the cell, something else that
      decodes to the same body. */
  lemma {:induction false} EncodeAnswers(l: Libraries, calls: seq<Call>, c: Content, encoding: string, errors: string)
    requires Inverse(l)
    ensures
      var e, r := l.lower(encoding), Outcome(l, Run(l, calls), Encodes(c, encoding, errors)).1;
      if e == "none" || e == "identity" then r == Success(c)
      else if e == "gzip" || e == "deflate" || e == "deflateraw" || e == "br" || e == "zstd" then
        r == l.compress(e, c) || (r.Success? && Decompressed(l, e, r.value) == Success(c))
      else r == l.codecsEncode(c, e, errors)
  {
    hide Run;
    EncodeRefines(l, calls, c, l.lower(encoding), errors);
  }

  /** The first call of all, with nothing in the cell. */
  lemma FirstAnswers(l: Libraries, c: Content, encoding: string, errors: string)
    ensures
      var e, r := l.lower(encoding), Outcome(l, None, Encodes(c, encoding, errors)).1;
      e == "gzip" || e == "deflate" || e == "deflateraw" || e == "br" || e == "zstd" ==> r == l.compress(e, c)
  {
  }

  /** A call fills the cell exactly if it is a compression that succeeds and the cell does not answer it. */
  lemma CellAfter(l: Libraries, cell: Option<Cell>, call: Call)
    ensures
      var e, t := l.lower(call.encoding), Outcome(l, cell, call).0;
      var answered :=
        && cell.Some? && call.c.Bytes? && cell.value.encoding == e && cell.value.errors == call.errors
        && call.c == if call.Decodes? then cell.value.encoded else cell.value.decoded;
      if e !in {"gzip", "deflate", "deflateraw", "br", "zstd"} || answered then t == cell
      else
        var r := if call.Decodes? then Decompressed(l, e, call.c) else l.compress(e, call.c);
        t == if r.Failure? then cell
             else if call.Decodes? then Some(Cell(call.c, e, call.errors, r.value))
             else Some(Cell(r.value, e, call.errors, call.c))
  {
  }
}
