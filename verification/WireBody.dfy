/**
 * Bodies on the wire: the node's JSON protocol, which carries text as text and anything else as
 * Base64, and the gateway's chunked encoder, lenient decoder and bounded reader.
 */
module WireBody {
  import opened Wrappers
  import opened Encodings

  // ---------------------------------------------------------------- the node

  datatype Json = Text(value: string) | Other

  type Object = map<string, Json>

  const BODY := "body"
  const BODY_BASE64 := "bodyBase64"

  function Field(o: Object, name: string): Option<Json> {
    if name in o then Some(o[name]) else None
  }

  function Decode(o: Object): Result<seq<Byte>, string> {
    match (Field(o, BODY), Field(o, BODY_BASE64))
    case (Some(_), Some(_)) => Err("exclusive")
    case (Some(v), None) => if v.Text? then Ok(Utf8(v.value)) else Err("string")
    case (None, Some(v)) =>
      if v.Other? then Err("string")
      else
        var bytes := Decode64(v.value, true);
        if bytes.None? then Err("canonical") else Ok(bytes.value)
    case (None, None) => Ok([])
  }

  /** The field and its value; text with a zero octet travels as Base64. */
  function Encode(body: seq<Byte>): (string, string) {
    var text := FromUtf8(body);
    if text.Some? && '\0' !in text.value then (BODY, text.value) else (BODY_BASE64, Base64(body))
  }

  /** Every body arrives unchanged, in exactly one field, as itself whenever it is text without zeros. */
  lemma BodiesArrive(body: seq<Byte>, others: Object)
    requires BODY !in others && BODY_BASE64 !in others
    ensures var (field, value) := Encode(body);
      && Decode(others[field := Text(value)]) == Ok(body)
      && (field == BODY || field == BODY_BASE64)
      && (field == BODY <==> exists t: string :: Utf8(t) == body && '\0' !in t)
      && (field == BODY ==> Utf8(value) == body)
  {
    Base64RoundTrip(body, true);
    if FromUtf8(body).Some? {
      FromUtf8IsExact(body);
    }
    if t: string :| Utf8(t) == body && '\0' !in t {
      Utf8RoundTrip(t);
    }
  }

  /** What the node accepts: at most one field, text, and canonical Base64; re-encoding a body gives its text back. */
  lemma AcceptedIsCanonical(o: Object)
    ensures Decode(o).Ok? <==>
      && !(BODY in o && BODY_BASE64 in o)
      && (BODY in o ==> o[BODY].Text?)
      && (BODY_BASE64 in o ==> o[BODY_BASE64].Text? && exists b: seq<Byte> :: Base64(b) == o[BODY_BASE64].value)
    ensures "body" !in o && "bodyBase64" !in o ==> Decode(o) == Ok([])
    ensures Decode(o).Ok? && BODY in o ==> Utf8(o[BODY].value) == Decode(o).value
    ensures Decode(o).Ok? && BODY_BASE64 in o ==> Base64(Decode(o).value) == o[BODY_BASE64].value
  {
    if BODY_BASE64 in o && o[BODY_BASE64].Text? {
      var text := o[BODY_BASE64].value;
      if Decode64(text, true).Some? {
        StrictIsCanonical(text);
      }
      if b: seq<Byte> :| Base64(b) == text {
        Base64RoundTrip(b, true);
      }
    }
  }

  // ---------------------------------------------------------------- the gateway

  const BODY_LIMIT: nat := 1048576
  const CHUNK: nat := 8192

  /** `binary` collects one character per octet, a chunk at a time; btoa then encodes it whole. */
  method GatewayEncode(bytes: seq<Byte>) returns (text: string)
    ensures text == Base64(bytes)
  {
    var binary: seq<Byte>, i := [], 0;
    while i < |bytes|
      invariant 0 <= i
      invariant binary == if i <= |bytes| then bytes[..i] else bytes
      decreases |bytes| - i
    {
      var end := if i + CHUNK <= |bytes| then i + CHUNK else |bytes|;
      binary := binary + bytes[i..end];
      assert bytes[..i] + bytes[i..end] == bytes[..end];
      assert end == |bytes| ==> bytes[..end] == bytes;
      i := i + CHUNK;
    }
    assert binary == bytes;
    text := Base64(binary);
  }

  datatype Problem = InvalidRequest | BodyTooLarge

  /** Well-formed padding is required, but unused bits are ignored. */
  function GatewayDecode(text: string): Result<seq<Byte>, Problem> {
    var bytes := Decode64(text, false);
    if bytes.None? then Err(InvalidRequest)
    else if |bytes.value| > BODY_LIMIT then Err(BodyTooLarge)
    else Ok(bytes.value)
  }

  /**
   * The gateway decodes what it or the node encodes, up to the limit; it accepts everything the node
   * accepts within the limit, and of what it accepts the node accepts exactly the canonical texts.
   */
  lemma GatewayInverts(bytes: seq<Byte>, text: string)
    ensures GatewayDecode(Base64(bytes)) == if |bytes| <= 1048576 then Ok(bytes) else Err(BodyTooLarge)
    ensures |bytes| <= 1048576 ==> |Base64(bytes)| <= 1398104 < 2 * 1048576
    ensures GatewayDecode(text).Ok? && Base64(GatewayDecode(text).value) == text <==>
      Decode64(text, true).Some? && |Decode64(text, true).value| <= 1048576
    ensures GatewayDecode(text).Err? && GatewayDecode(text).error == InvalidRequest ==> Decode64(text, true).None?
  {
    Base64RoundTrip(bytes, false);
    Base64Length(bytes);
    LenientAgrees(text);
  }

  /** What reading a stream delivers next; after the listed items it ends. */
  datatype Read = Data(bytes: seq<Byte>) | Broken

  datatype ReadError = TooLarge | StreamError

  function Joined(stream: seq<Read>): seq<Byte> {
    if stream == [] then []
    else Joined(stream[..|stream| - 1]) + if stream[|stream| - 1].Data? then stream[|stream| - 1].bytes else []
  }

  /** The first read that fails, or brings the size above the limit, ends the reading. */
  function Outcome(stream: seq<Read>, limit: nat): Result<seq<Byte>, ReadError> {
    if stream == [] then Ok([])
    else
      var init, last := Outcome(stream[..|stream| - 1], limit), stream[|stream| - 1];
      if init.Err? then init
      else if last.Broken? then Err(StreamError)
      else if |Joined(stream)| > limit then Err(TooLarge)
      else Ok(Joined(stream))
  }

  /** Collects chunks while counting, then copies them into one buffer; errors cancel the stream. */
  method ReadLimited(stream: seq<Read>, limit: nat) returns (r: Result<seq<Byte>, ReadError>, cancelled: bool)
    ensures r == Outcome(stream, limit)
    ensures cancelled <==> r.Err?
  {
    var chunks: seq<seq<Byte>>, size, i := [], 0, 0;
    cancelled := false;
    while i < |stream|
      invariant 0 <= i <= |stream|
      invariant Concat(chunks) == Joined(stream[..i]) && size == |Concat(chunks)| <= limit
      invariant Outcome(stream[..i], limit) == Ok(Joined(stream[..i]))
    {
      assert stream[..i + 1][..i] == stream[..i];
      if stream[i].Broken? {
        OutcomePrefix(stream, limit, i + 1);
        return Err(StreamError), true;
      }
      size := size + |stream[i].bytes|;
      if size > limit {
        OutcomePrefix(stream, limit, i + 1);
        return Err(TooLarge), true;
      }
      assert (chunks + [stream[i].bytes])[..|chunks|] == chunks;
      chunks := chunks + [stream[i].bytes];
      i := i + 1;
    }
    assert stream[..i] == stream;
    assert Outcome(stream, limit) == Ok(Concat(chunks));
    var bytes := Join(chunks, size);
    r := Ok(bytes[..]);
  }

  /** Copies the chunks one after the other into a buffer of their total size. */
  method Join(chunks: seq<seq<Byte>>, size: nat) returns (bytes: array<Byte>)
    requires size == |Concat(chunks)|
    ensures bytes[..] == Concat(chunks)
  {
    bytes := new Byte[size];
    var offset, k := 0, 0;
    while k < |chunks|
      invariant 0 <= k <= |chunks|
      invariant offset == |Concat(chunks[..k])| <= size
      invariant bytes[..offset] == Concat(chunks[..k])
    {
      assert chunks[..k + 1][..k] == chunks[..k];
      ConcatPrefix(chunks, k + 1);
      var chunk := chunks[k];
      forall j | 0 <= j < |chunk| {
        bytes[offset + j] := chunk[j];
      }
      assert bytes[..offset + |chunk|] == Concat(chunks[..k]) + chunk;
      offset := offset + |chunk|;
      k := k + 1;
    }
    assert chunks[..k] == chunks;
    assert bytes[..offset] == bytes[..];
  }

  function Concat(chunks: seq<seq<Byte>>): seq<Byte> {
    if chunks == [] then [] else Concat(chunks[..|chunks| - 1]) + chunks[|chunks| - 1]
  }

  lemma {:induction false} ConcatPrefix(chunks: seq<seq<Byte>>, k: nat)
    requires k <= |chunks|
    ensures |Concat(chunks[..k])| <= |Concat(chunks)|
    decreases |chunks|
  {
    if k < |chunks| {
      ConcatPrefix(chunks[..|chunks| - 1], k);
      assert chunks[..|chunks| - 1][..k] == chunks[..k];
    } else {
      assert chunks[..k] == chunks;
    }
  }

  lemma {:induction false} OutcomePrefix(stream: seq<Read>, limit: nat, k: nat)
    requires k <= |stream| && Outcome(stream[..k], limit).Err?
    ensures Outcome(stream, limit) == Outcome(stream[..k], limit)
    decreases |stream|
  {
    if k == |stream| {
      assert stream[..k] == stream;
    } else {
      assert stream[..|stream| - 1][..k] == stream[..k];
      OutcomePrefix(stream[..|stream| - 1], limit, k);
    }
  }

  /** Of a stream that does not break, all is returned exactly when all of it fits. */
  lemma {:induction false} ReadsWithinLimit(stream: seq<Read>, limit: nat)
    requires forall i :: 0 <= i < |stream| ==> stream[i].Data?
    ensures Outcome(stream, limit) == if |Joined(stream)| <= limit then Ok(Joined(stream)) else Err(TooLarge)
  {
    if stream != [] {
      ReadsWithinLimit(stream[..|stream| - 1], limit);
    }
  }

  /** The k-th read is the first that breaks or brings the size above the limit. */
  predicate FirstProblem(stream: seq<Read>, limit: nat, k: nat) {
    && k < |stream|
    && (stream[k].Broken? || |Joined(stream[..k + 1])| > limit)
    && (forall i :: 0 <= i < k ==> stream[i].Data?)
    && |Joined(stream[..k])| <= limit
  }

  /** The first problem decides the error: a broken stream, or a body that is too large. */
  lemma FirstProblemDecides(stream: seq<Read>, limit: nat, k: nat)
    requires FirstProblem(stream, limit, k)
    ensures Outcome(stream, limit) == Err(if stream[k].Broken? then StreamError else TooLarge)
  {
    assert stream[..k + 1][..k] == stream[..k];
    ReadsWithinLimit(stream[..k], limit);
    OutcomePrefix(stream, limit, k + 1);
  }
}
