/** Messages and frames (crates/snapcast-proto/src/message, and the frame reader
    and writer of crates/snapcast-client/src/connection/mod.rs). */
module Framing {
  import opened Bytes
  import opened Timestamps
  import opened Utf8
  import opened Wire

  const HEADER_SIZE: nat := 26

  datatype MessageType =
    | TypeBase
    | TypeCodecHeader
    | TypeWireChunk
    | TypeServerSettings
    | TypeTime
    | TypeHello
    | TypeStreamTags
    | TypeClientInfo
    | TypeError
    | TypeUnknown(number: u16)

  function FromU16(value: u16): MessageType {
    match value
    case 0 => TypeBase
    case 1 => TypeCodecHeader
    case 2 => TypeWireChunk
    case 3 => TypeServerSettings
    case 4 => TypeTime
    case 5 => TypeHello
    case 6 => TypeStreamTags
    case 7 => TypeClientInfo
    case 8 => TypeError
    case _ => TypeUnknown(value)
  }

  function ToU16(t: MessageType): u16 {
    match t
    case TypeBase => 0
    case TypeCodecHeader => 1
    case TypeWireChunk => 2
    case TypeServerSettings => 3
    case TypeTime => 4
    case TypeHello => 5
    case TypeStreamTags => 6
    case TypeClientInfo => 7
    case TypeError => 8
    case TypeUnknown(number) => number
  }

  /** An unknown type does not carry the number of a known one. */
  predicate Canonical(t: MessageType) {
    t.TypeUnknown? ==> t.number > 8
  }

  /** The numbering is a bijection between numbers and canonical types. */
  lemma TypeNumbering(t: MessageType, value: u16)
    ensures FromU16(ToU16(t)) == t <==> Canonical(t)
    ensures ToU16(FromU16(value)) == value && Canonical(FromU16(value))
  {
  }

  datatype BaseMessage =
    BaseMessage(msgType: MessageType, id: u16, refersTo: u16, sent: Timeval, received: Timeval, size: u32)

  /** Payloads. Text is the UTF-8 bytes of a string; the JSON-bodied messages are
      their JSON text. */
  datatype Payload =
    | Time(latency: Timeval)
    | Hello(json: seq<byte>)
    | ServerSettings(json: seq<byte>)
    | CodecHeader(codec: seq<byte>, header: seq<byte>)
    | WireChunk(timestamp: Timeval, audio: seq<byte>)
    | ClientInfo(json: seq<byte>)
    | Error(code: u32, error: seq<byte>, message: seq<byte>)
    | StreamTags(raw: seq<byte>)

  datatype Message = Message(base: BaseMessage, payload: Payload)

  /** The payload is of the kind the header announces. */
  predicate TypeMatches(t: MessageType, p: Payload) {
    match t
    case TypeTime => p.Time?
    case TypeHello => p.Hello?
    case TypeServerSettings => p.ServerSettings?
    case TypeCodecHeader => p.CodecHeader?
    case TypeWireChunk => p.WireChunk?
    case TypeClientInfo => p.ClientInfo?
    case TypeError => p.Error?
    case _ => p.StreamTags?
  }

  /** Timestamps in range, as the field types of the program guarantee. */
  predicate StampsFit(p: Payload) {
    match p
    case Time(latency) => FitsWire(latency)
    case WireChunk(timestamp, _) => FitsWire(timestamp)
    case _ => true
  }

  /** Text is valid text, as the string type of the program guarantees. */
  predicate TextsValid(p: Payload) {
    match p
    case Hello(json) => IsUtf8(json)
    case ServerSettings(json) => IsUtf8(json)
    case ClientInfo(json) => IsUtf8(json)
    case CodecHeader(codec, _) => IsUtf8(codec)
    case Error(_, error, message) => IsUtf8(error) && IsUtf8(message)
    case _ => true
  }

  predicate PayloadFits(p: Payload) {
    StampsFit(p) && TextsValid(p)
  }

  /** The payload with its texts decoded, bytes that are no text being replaced. */
  function Decoded(p: Payload): Payload {
    match p
    case Hello(json) => Hello(Lossy(json))
    case ServerSettings(json) => ServerSettings(Lossy(json))
    case ClientInfo(json) => ClientInfo(Lossy(json))
    case CodecHeader(codec, header) => CodecHeader(Lossy(codec), header)
    case Error(code, error, message) => Error(code, Lossy(error), Lossy(message))
    case _ => p
  }

  lemma DecodedFits(p: Payload)
    requires StampsFit(p)
    ensures PayloadFits(Decoded(p))
    ensures Decoded(p) == p <==> TextsValid(p)
  {
    match p
    case Hello(json) => TextDecodes(json);
    case ServerSettings(json) => TextDecodes(json);
    case ClientInfo(json) => TextDecodes(json);
    case CodecHeader(codec, _) => TextDecodes(codec);
    case Error(_, error, message) =>
      TextDecodes(error);
      TextDecodes(message);
    case _ =>
  }

  lemma TextDecodes(text: seq<byte>)
    ensures IsUtf8(Lossy(text)) && (Lossy(text) == text <==> IsUtf8(text))
  {
    LossyIsText(text);
    LossyIsIdentity(text);
  }

  predicate BaseFits(b: BaseMessage) {
    FitsWire(b.sent) && FitsWire(b.received)
  }

  predicate MessageFits(m: Message) {
    BaseFits(m.base) && PayloadFits(m.payload) && Canonical(m.base.msgType) && TypeMatches(m.base.msgType, m.payload)
  }

  // ----- Payloads as bytes -----

  function PayloadBytes(p: Payload): seq<byte>
    requires StampsFit(p)
  {
    match p
    case Time(latency) => Tv(latency)
    case Hello(json) => Field(json)
    case ServerSettings(json) => Field(json)
    case CodecHeader(codec, header) => Field(codec) + Field(header)
    case WireChunk(timestamp, audio) => Tv(timestamp) + Field(audio)
    case ClientInfo(json) => Field(json)
    case Error(code, error, message) => U32(code) + (Field(error) + Field(message))
    case StreamTags(raw) => raw
  }

  function ParseTime(s: seq<byte>): Parsed<Payload> {
    match ParseTv(s)
    case Fail(e) => Fail(e)
    case Got(t, rest) => Got(Time(t), rest)
  }

  function ParseTwoFields(s: seq<byte>): Parsed<(seq<byte>, seq<byte>)> {
    match ParseField(s)
    case Fail(e) => Fail(e)
    case Got(a, s1) =>
      match ParseField(s1)
      case Fail(e) => Fail(e)
      case Got(b, s2) => Got((a, b), s2)
  }

  function ParseCodecHeader(s: seq<byte>): Parsed<Payload> {
    match ParseTwoFields(s)
    case Fail(e) => Fail(e)
    case Got(f, rest) => Got(CodecHeader(f.0, f.1), rest)
  }

  function ParseWireChunk(s: seq<byte>): Parsed<Payload> {
    match ParseTv(s)
    case Fail(e) => Fail(e)
    case Got(t, s1) =>
      match ParseField(s1)
      case Fail(e) => Fail(e)
      case Got(audio, s2) => Got(WireChunk(t, audio), s2)
  }

  function ParseError(s: seq<byte>): Parsed<Payload> {
    match ParseU32(s)
    case Fail(e) => Fail(e)
    case Got(code, s1) =>
      match ParseTwoFields(s1)
      case Fail(e) => Fail(e)
      case Got(f, s2) => Got(Error(code, f.0, f.1), s2)
  }

  /** The JSON text of a message; what the text says is not looked into. */
  function ParseJson(t: MessageType, s: seq<byte>): Parsed<Payload> {
    match ParseField(s)
    case Fail(e) => Fail(e)
    case Got(json, rest) =>
      Got(match t
          case TypeHello => Hello(json)
          case TypeServerSettings => ServerSettings(json)
          case _ => ClientInfo(json), rest)
  }

  /** The payload of a frame of this type; bytes after it are not looked at. */
  function ParsePayload(t: MessageType, s: seq<byte>): Parsed<Payload> {
    match ParseRaw(t, s)
    case Fail(e) => Fail(e)
    case Got(p, rest) => Got(Decoded(p), rest)
  }

  /** The same before its texts are decoded. */
  function ParseRaw(t: MessageType, s: seq<byte>): Parsed<Payload> {
    match t
    case TypeTime => ParseTime(s)
    case TypeHello => ParseJson(t, s)
    case TypeServerSettings => ParseJson(t, s)
    case TypeCodecHeader => ParseCodecHeader(s)
    case TypeWireChunk => ParseWireChunk(s)
    case TypeClientInfo => ParseJson(t, s)
    case TypeError => ParseError(s)
    case _ => Got(StreamTags(s), [])
  }

  lemma TwoFieldsRoundTrip(a: seq<byte>, b: seq<byte>)
    requires |a| <= MAX_PAYLOAD && |b| <= MAX_PAYLOAD
    ensures ParseTwoFields(Field(a) + Field(b)) == Got((a, b), [])
  {
    FieldRoundTrip(a, Field(b));
    FieldRoundTrip(b, []);
    assert Field(b) + [] == Field(b);
  }

  lemma InARow(s: seq<byte>, a: seq<byte>, afterA: seq<byte>, b: seq<byte>, afterB: seq<byte>)
    requires s == a + afterA && afterA == b + afterB
    ensures s == (a + b) + afterB
  {
  }

  lemma TwoFieldsExact(s: seq<byte>)
    requires ParseTwoFields(s).Got?
    ensures var p := ParseTwoFields(s);
            s == Field(p.value.0) + Field(p.value.1) + p.rest
  {
    FieldExact(s);
    FieldExact(ParseField(s).rest);
  }

  /** A payload that is not too long is read back from its bytes. */
  lemma PayloadRoundTrip(t: MessageType, p: Payload)
    requires PayloadFits(p) && TypeMatches(t, p)
    requires |PayloadBytes(p)| <= MAX_PAYLOAD
    ensures ParsePayload(t, PayloadBytes(p)) == Got(p, [])
  {
    RawRoundTrip(t, p);
    DecodedFits(p);
  }

  lemma RawRoundTrip(t: MessageType, p: Payload)
    requires StampsFit(p) && TypeMatches(t, p)
    requires |PayloadBytes(p)| <= MAX_PAYLOAD
    ensures ParseRaw(t, PayloadBytes(p)) == Got(p, [])
  {
    var s := PayloadBytes(p);
    assert s + [] == s;
    match p
    case Time(latency) => TvRoundTrip(latency, []);
    case Hello(json) => FieldRoundTrip(json, []);
    case ServerSettings(json) => FieldRoundTrip(json, []);
    case ClientInfo(json) => FieldRoundTrip(json, []);
    case CodecHeader(codec, header) => TwoFieldsRoundTrip(codec, header);
    case WireChunk(timestamp, audio) =>
      TvRoundTrip(timestamp, Field(audio));
      FieldRoundTrip(audio, []);
      assert Field(audio) + [] == Field(audio);
    case Error(code, error, message) =>
      U32RoundTrip(code, Field(error) + Field(message));
      TwoFieldsRoundTrip(error, message);
    case StreamTags(raw) =>
  }

  lemma WireChunkExact(s: seq<byte>)
    requires ParseWireChunk(s).Got?
    ensures var p := ParseWireChunk(s);
            p.value.WireChunk? && StampsFit(p.value) && s == PayloadBytes(p.value) + p.rest
  {
    TvExact(s);
    FieldExact(ParseTv(s).rest);
    var t, rest := ParseTv(s), ParseTv(s).rest;
    InARow(s, Tv(t.value), rest, Field(ParseField(rest).value), ParseField(rest).rest);
  }

  lemma ErrorExact(s: seq<byte>)
    requires ParseError(s).Got?
    ensures var p := ParseError(s);
            p.value.Error? && StampsFit(p.value) && s == PayloadBytes(p.value) + p.rest
  {
    U32Exact(s);
    TwoFieldsExact(ParseU32(s).rest);
    var rest := ParseU32(s).rest;
    var f := ParseTwoFields(rest);
    InARow(s, U32(ParseU32(s).value), rest, Field(f.value.0) + Field(f.value.1), f.rest);
  }

  lemma JsonExact(t: MessageType, s: seq<byte>)
    requires t.TypeHello? || t.TypeServerSettings? || t.TypeClientInfo?
    requires ParseJson(t, s).Got?
    ensures var p := ParseJson(t, s);
            TypeMatches(t, p.value) && StampsFit(p.value) && s == PayloadBytes(p.value) + p.rest
  {
    FieldExact(s);
  }

  lemma TagsExact(s: seq<byte>)
    ensures StampsFit(StreamTags(s)) && s == PayloadBytes(StreamTags(s)) + []
  {
  }

  /** Before decoding, what a payload is read from begins with its own bytes. */
  lemma RawExact(t: MessageType, s: seq<byte>)
    requires ParseRaw(t, s).Got?
    ensures var p := ParseRaw(t, s);
            && TypeMatches(t, p.value) && StampsFit(p.value)
            && s == PayloadBytes(p.value) + p.rest
  {
    match t
    case TypeTime => TvExact(s);
    case TypeHello => JsonExact(t, s);
    case TypeServerSettings => JsonExact(t, s);
    case TypeClientInfo => JsonExact(t, s);
    case TypeCodecHeader => TwoFieldsExact(s);
    case TypeWireChunk => WireChunkExact(s);
    case TypeError => ErrorExact(s);
    case _ => TagsExact(s);
  }

  /** No field next to a text, nor a text, is longer than n bytes. */
  predicate FieldsWithin(p: Payload, n: nat) {
    match p
    case Hello(json) => |json| <= n
    case ServerSettings(json) => |json| <= n
    case ClientInfo(json) => |json| <= n
    case CodecHeader(codec, header) => |codec| <= n && |header| <= n
    case Error(_, error, message) => |error| <= n && |message| <= n
    case _ => true
  }

  lemma RawFieldsWithin(t: MessageType, s: seq<byte>)
    requires ParseRaw(t, s).Got?
    ensures FieldsWithin(ParseRaw(t, s).value, MAX_PAYLOAD)
  {
  }

  /** Fields with their lengths can be told apart however they go on. */
  lemma FieldIsPrefixFree(a: seq<byte>, x: seq<byte>, b: seq<byte>, y: seq<byte>)
    requires |a| < U32_SPAN && |b| < U32_SPAN && Field(a) + x == Field(b) + y
    ensures a == b && x == y
  {
    LengthFirst(a, x);
    LengthFirst(b, y);
    EqualParts(a, x, b, y);
  }

  lemma LengthFirst(a: seq<byte>, x: seq<byte>)
    requires |a| < U32_SPAN
    ensures ParseU32(Field(a) + x) == Got(|a|, a + x)
  {
    assert Field(a) + x == U32(|a|) + (a + x);
    U32RoundTrip(|a|, a + x);
  }

  lemma EqualParts(a: seq<byte>, x: seq<byte>, b: seq<byte>, y: seq<byte>)
    requires |a| == |b| && a + x == b + y
    ensures a == b && x == y
  {
    assert a == (a + x)[..|a|] && b == (b + y)[..|b|];
    assert x == (a + x)[|a|..] && y == (b + y)[|b|..];
  }

  lemma Associate(a: seq<byte>, b: seq<byte>, c: seq<byte>)
    ensures (a + b) + c == a + (b + c)
  {
  }

  /** Decoding changes a payload's bytes if it changes its texts. */
  lemma DecodingShows(p: Payload, rest: seq<byte>)
    requires StampsFit(p) && FieldsWithin(p, MAX_PAYLOAD) && FieldsWithin(Decoded(p), 3 * MAX_PAYLOAD)
    requires PayloadBytes(Decoded(p)) + rest == PayloadBytes(p) + rest
    ensures Decoded(p) == p
  {
    match p
    case Hello(json) => FieldIsPrefixFree(Lossy(json), rest, json, rest);
    case ServerSettings(json) => FieldIsPrefixFree(Lossy(json), rest, json, rest);
    case ClientInfo(json) => FieldIsPrefixFree(Lossy(json), rest, json, rest);
    case CodecHeader(codec, header) => CodecShows(codec, Field(header), rest);
    case Error(code, error, message) => ErrorShows(U32(code), error, message, rest);
    case _ =>
  }

  lemma CodecShows(codec: seq<byte>, header: seq<byte>, rest: seq<byte>)
    requires |codec| < U32_SPAN && |Lossy(codec)| < U32_SPAN
    requires (Field(Lossy(codec)) + header) + rest == (Field(codec) + header) + rest
    ensures Lossy(codec) == codec
  {
    Associate(Field(Lossy(codec)), header, rest);
    Associate(Field(codec), header, rest);
    FieldIsPrefixFree(Lossy(codec), header + rest, codec, header + rest);
  }

  lemma ErrorShows(code: seq<byte>, error: seq<byte>, message: seq<byte>, rest: seq<byte>)
    requires |error| < U32_SPAN && |Lossy(error)| < U32_SPAN && |message| < U32_SPAN && |Lossy(message)| < U32_SPAN
    requires (code + (Field(Lossy(error)) + Field(Lossy(message)))) + rest
          == (code + (Field(error) + Field(message))) + rest
    ensures Lossy(error) == error && Lossy(message) == message
  {
    TwoFieldsShow(code, Field(Lossy(error)), Field(Lossy(message)), Field(error), Field(message), rest);
    FieldIsPrefixFree(Lossy(error), Field(Lossy(message)) + rest, error, Field(message) + rest);
    FieldIsPrefixFree(Lossy(message), rest, message, rest);
  }

  lemma TwoFieldsShow(code: seq<byte>, a: seq<byte>, b: seq<byte>, c: seq<byte>, d: seq<byte>, rest: seq<byte>)
    requires (code + (a + b)) + rest == (code + (c + d)) + rest
    ensures a + (b + rest) == c + (d + rest)
  {
    Associate(code, a + b, rest);
    Associate(code, c + d, rest);
    EqualParts(code, (a + b) + rest, code, (c + d) + rest);
    Associate(a, b, rest);
    Associate(c, d, rest);
  }

  /** Decoding makes a payload at most three times as long. */
  lemma DecodedLength(p: Payload)
    requires StampsFit(p)
    ensures |PayloadBytes(Decoded(p))| <= 3 * |PayloadBytes(p)|
    ensures FieldsWithin(p, MAX_PAYLOAD) ==> FieldsWithin(Decoded(p), 3 * MAX_PAYLOAD)
  {
    match p
    case Hello(json) => LossyLength(json);
    case ServerSettings(json) => LossyLength(json);
    case ClientInfo(json) => LossyLength(json);
    case CodecHeader(codec, _) => LossyLength(codec);
    case Error(_, error, message) =>
      LossyLength(error);
      LossyLength(message);
    case _ =>
  }

  /** A payload read from a body begins with its own bytes exactly if its texts were
      valid UTF-8; in any case it is of the kind announced and can be sent on. */
  lemma PayloadExact(t: MessageType, s: seq<byte>)
    requires ParsePayload(t, s).Got?
    ensures var p := ParsePayload(t, s);
            && TypeMatches(t, p.value) && PayloadFits(p.value) && |PayloadBytes(p.value)| <= 3 * |s|
            && (s == PayloadBytes(p.value) + p.rest <==> TextsValid(ParseRaw(t, s).value))
  {
    RawExact(t, s);
    var raw, rest := ParseRaw(t, s).value, ParseRaw(t, s).rest;
    DecodedFits(raw);
    DecodedLength(raw);
    RawFieldsWithin(t, s);
    if s == PayloadBytes(Decoded(raw)) + rest {
      DecodingShows(raw, rest);
    }
  }

  // ----- The header -----

  function HeaderBytes(b: BaseMessage): (s: seq<byte>)
    requires BaseFits(b)
    ensures |s| == HEADER_SIZE
  {
    U16(ToU16(b.msgType)) + (U16(b.id) + (U16(b.refersTo) + (Tv(b.sent) + (Tv(b.received) + U32(b.size)))))
  }

  datatype Ids = Ids(msgType: MessageType, id: u16, refersTo: u16)

  function ParseIds(s: seq<byte>): Parsed<Ids> {
    match ParseU16(s)
    case Fail(e) => Fail(e)
    case Got(number, s1) =>
      match ParseU16(s1)
      case Fail(e) => Fail(e)
      case Got(id, s2) =>
        match ParseU16(s2)
        case Fail(e) => Fail(e)
        case Got(refersTo, s3) => Got(Ids(FromU16(number), id, refersTo), s3)
  }

  datatype Stamps = Stamps(sent: Timeval, received: Timeval, size: u32)

  function ParseStamps(s: seq<byte>): Parsed<Stamps> {
    match ParseTv(s)
    case Fail(e) => Fail(e)
    case Got(sent, s1) =>
      match ParseTv(s1)
      case Fail(e) => Fail(e)
      case Got(received, s2) =>
        match ParseU32(s2)
        case Fail(e) => Fail(e)
        case Got(size, s3) => Got(Stamps(sent, received, size), s3)
  }

  function ParseHeader(s: seq<byte>): Parsed<BaseMessage> {
    match ParseIds(s)
    case Fail(e) => Fail(e)
    case Got(ids, s1) =>
      match ParseStamps(s1)
      case Fail(e) => Fail(e)
      case Got(t, s2) => Got(BaseMessage(ids.msgType, ids.id, ids.refersTo, t.sent, t.received, t.size), s2)
  }

  lemma IdsRoundTrip(t: MessageType, id: u16, refersTo: u16, rest: seq<byte>)
    requires Canonical(t)
    ensures ParseIds(U16(ToU16(t)) + (U16(id) + (U16(refersTo) + rest))) == Got(Ids(t, id, refersTo), rest)
  {
    U16RoundTrip(ToU16(t), U16(id) + (U16(refersTo) + rest));
    U16RoundTrip(id, U16(refersTo) + rest);
    U16RoundTrip(refersTo, rest);
    TypeNumbering(t, 0);
  }

  lemma StampsRoundTrip(sent: Timeval, received: Timeval, size: u32, rest: seq<byte>)
    requires FitsWire(sent) && FitsWire(received)
    ensures ParseStamps(Tv(sent) + (Tv(received) + (U32(size) + rest))) == Got(Stamps(sent, received, size), rest)
  {
    TvRoundTrip(sent, Tv(received) + (U32(size) + rest));
    TvRoundTrip(received, U32(size) + rest);
    U32RoundTrip(size, rest);
  }

  lemma Regroup(a: seq<byte>, b: seq<byte>, c: seq<byte>, d: seq<byte>, e: seq<byte>, f: seq<byte>, rest: seq<byte>)
    ensures (a + (b + (c + (d + (e + f))))) + rest == a + (b + (c + (d + (e + (f + rest)))))
  {
    assert (e + f) + rest == e + (f + rest);
    assert (d + (e + f)) + rest == d + (e + (f + rest));
    assert (c + (d + (e + f))) + rest == c + (d + (e + (f + rest)));
    assert (b + (c + (d + (e + f)))) + rest == b + (c + (d + (e + (f + rest))));
  }

  lemma HeaderRoundTrip(b: BaseMessage, rest: seq<byte>)
    requires BaseFits(b) && Canonical(b.msgType)
    ensures ParseHeader(HeaderBytes(b) + rest) == Got(b, rest)
  {
    var stamps := Tv(b.sent) + (Tv(b.received) + (U32(b.size) + rest));
    IdsRoundTrip(b.msgType, b.id, b.refersTo, stamps);
    StampsRoundTrip(b.sent, b.received, b.size, rest);
    Regroup(U16(ToU16(b.msgType)), U16(b.id), U16(b.refersTo), Tv(b.sent), Tv(b.received), U32(b.size), rest);
  }

  lemma ParseHeaderLength(s: seq<byte>)
    ensures |s| >= HEADER_SIZE <==> ParseHeader(s).Got?
    ensures ParseHeader(s).Got? ==> ParseHeader(s).rest == s[HEADER_SIZE..]
    ensures ParseHeader(s).Fail? ==> ParseHeader(s).error == EndOfInput
  {
  }

  lemma IdsExact(s: seq<byte>)
    requires ParseIds(s).Got?
    ensures var p := ParseIds(s);
            s == U16(ToU16(p.value.msgType)) + (U16(p.value.id) + (U16(p.value.refersTo) + p.rest))
  {
    var p1 := ParseU16(s);
    var p2 := ParseU16(p1.rest);
    U16Exact(s);
    U16Exact(p1.rest);
    U16Exact(p2.rest);
    TypeNumbering(TypeBase, p1.value);
  }

  lemma StampsExact(s: seq<byte>)
    requires ParseStamps(s).Got?
    ensures var p := ParseStamps(s);
            && FitsWire(p.value.sent) && FitsWire(p.value.received)
            && s == Tv(p.value.sent) + (Tv(p.value.received) + (U32(p.value.size) + p.rest))
  {
    TvExact(s);
    TvExact(ParseTv(s).rest);
    U32Exact(ParseTv(ParseTv(s).rest).rest);
  }

  /** A header is read from its own 26 bytes and from no others. */
  lemma HeaderExact(s: seq<byte>)
    requires ParseHeader(s).Got?
    ensures var p := ParseHeader(s);
            BaseFits(p.value) && Canonical(p.value.msgType) && s == HeaderBytes(p.value) + p.rest
  {
    IdsExact(s);
    StampsExact(ParseIds(s).rest);
    var b, rest := ParseHeader(s).value, ParseHeader(s).rest;
    TypeNumbering(TypeBase, ParseU16(s).value);
    Regroup(U16(ToU16(b.msgType)), U16(b.id), U16(b.refersTo), Tv(b.sent), Tv(b.received), U32(b.size), rest);
  }

  /** The header is settled by the first 26 bytes. */
  lemma HeaderIsLocal(s: seq<byte>)
    requires |s| >= HEADER_SIZE
    ensures ParseHeader(s).Got?
    ensures ParseHeader(s[..HEADER_SIZE]) == Got(ParseHeader(s).value, [])
  {
    ParseHeaderLength(s);
    HeaderExact(s);
    var b := ParseHeader(s).value;
    HeaderRoundTrip(b, []);
    assert s[..HEADER_SIZE] == HeaderBytes(b) + [];
  }

  /** Parsing a filled header buffer is parsing the stream. */
  lemma HeaderFromBuffer(s: seq<byte>)
    ensures |s| < HEADER_SIZE ==> ParseHeader(s) == Fail(EndOfInput)
    ensures |s| >= HEADER_SIZE ==> ParseHeader(s[..HEADER_SIZE]).Got?
    ensures |s| >= HEADER_SIZE ==>
      ParseHeader(s) == Got(ParseHeader(s[..HEADER_SIZE]).value, s[HEADER_SIZE..])
  {
    ParseHeaderLength(s);
    if |s| >= HEADER_SIZE {
      HeaderIsLocal(s);
    }
  }

  // ----- Frames -----

  /** Serialising sets the header's size field to the payload's length, cut to 32 bits. */
  function Sized(m: Message): BaseMessage
    requires PayloadFits(m.payload)
  {
    m.base.(size := |PayloadBytes(m.payload)| % U32_SPAN)
  }

  function Frame(m: Message): seq<byte>
    requires MessageFits(m)
  {
    HeaderBytes(Sized(m)) + PayloadBytes(m.payload)
  }

  /** As many payload bytes as the header announces, at most 2 MiB. */
  function ParseBody(b: BaseMessage, s: seq<byte>): Parsed<Message> {
    if b.size > MAX_PAYLOAD then Fail(TooLarge(b.size))
    else if |s| < b.size then Fail(EndOfInput)
    else
      match ParsePayload(b.msgType, s[..b.size])
      case Fail(e) => Fail(e)
      case Got(p, _) => Got(Message(b, p), s[b.size..])
  }

  /** What a reader makes of a stream: the header, stamped with the time of
      receipt, then the payload. */
  function ParseFrame(s: seq<byte>, now: Timeval): Parsed<Message> {
    match ParseHeader(s)
    case Fail(e) => Fail(e)
    case Got(b, rest) => ParseBody(b.(received := now), rest)
  }

  /** The message as its reader sees it: sized, and stamped on receipt. */
  function Received(m: Message, now: Timeval): Message
    requires PayloadFits(m.payload)
  {
    Message(Sized(m).(received := now), m.payload)
  }

  predicate Sendable(m: Message) {
    MessageFits(m) && |PayloadBytes(m.payload)| <= MAX_PAYLOAD
  }

  lemma FrameStart(m: Message, rest: seq<byte>, now: Timeval)
    requires MessageFits(m)
    ensures ParseFrame(Frame(m) + rest, now)
      == ParseBody(Sized(m).(received := now), PayloadBytes(m.payload) + rest)
  {
    var h, s := HeaderBytes(Sized(m)), PayloadBytes(m.payload);
    HeaderRoundTrip(Sized(m), s + rest);
    assert (h + s) + rest == h + (s + rest);
  }

  lemma BodyRead(b: BaseMessage, s: seq<byte>, rest: seq<byte>, p: Payload)
    requires b.size == |s| <= MAX_PAYLOAD
    requires ParsePayload(b.msgType, s) == Got(p, [])
    ensures ParseBody(b, s + rest) == Got(Message(b, p), rest)
  {
    assert (s + rest)[..|s|] == s && (s + rest)[|s|..] == rest;
  }

  lemma BodyRoundTrip(b: BaseMessage, p: Payload, rest: seq<byte>)
    requires PayloadFits(p) && TypeMatches(b.msgType, p)
    requires b.size == |PayloadBytes(p)| <= MAX_PAYLOAD
    ensures ParseBody(b, PayloadBytes(p) + rest) == Got(Message(b, p), rest)
  {
    PayloadRoundTrip(b.msgType, p);
    BodyRead(b, PayloadBytes(p), rest, p);
  }

  lemma SendableIsRead(m: Message, rest: seq<byte>, now: Timeval)
    requires Sendable(m)
    ensures ParseFrame(Frame(m) + rest, now) == Got(Received(m, now), rest)
  {
    FrameStart(m, rest, now);
    SmallModulo(|PayloadBytes(m.payload)|);
    BodyRoundTrip(Sized(m).(received := now), m.payload, rest);
  }

  /** A payload read from a body is never longer than the body allows. */
  lemma BodyBounds(b: BaseMessage, s: seq<byte>)
    requires ParseBody(b, s).Got?
    ensures var p := ParseBody(b, s).value.payload;
            PayloadFits(p) && |PayloadBytes(p)| <= 3 * b.size <= 3 * MAX_PAYLOAD
  {
    PayloadExact(b.msgType, s[..b.size]);
  }

  lemma OversizedIsNotRead(m: Message, rest: seq<byte>, now: Timeval)
    requires MessageFits(m) && !Sendable(m)
    ensures ParseFrame(Frame(m) + rest, now) != Got(Received(m, now), rest)
  {
    FrameStart(m, rest, now);
    var b, s := Sized(m).(received := now), PayloadBytes(m.payload) + rest;
    if ParseBody(b, s).Got? {
      BodyBounds(b, s);
    }
  }

  /** A frame is read back as the message it was made from, leaving what follows it
      untouched, exactly when its payload is at most 2 MiB. */
  lemma FrameRoundTrip(m: Message, rest: seq<byte>, now: Timeval)
    requires MessageFits(m)
    ensures ParseFrame(Frame(m) + rest, now) == Got(Received(m, now), rest)
       <==> |PayloadBytes(m.payload)| <= MAX_PAYLOAD
  {
    if Sendable(m) {
      SendableIsRead(m, rest, now);
    } else {
      OversizedIsNotRead(m, rest, now);
    }
  }

  /** Too long a payload that still fits its length field is refused by name. */
  lemma OversizedIsRefused(m: Message, rest: seq<byte>, now: Timeval)
    requires MessageFits(m) && MAX_PAYLOAD < |PayloadBytes(m.payload)| < U32_SPAN
    ensures ParseFrame(Frame(m) + rest, now) == Fail(TooLarge(|PayloadBytes(m.payload)|))
  {
    FrameStart(m, rest, now);
    SmallModulo(|PayloadBytes(m.payload)|);
  }

  lemma SmallModulo(n: nat)
    requires n < U32_SPAN
    ensures n % U32_SPAN == n
  {
  }

  lemma CutAfterHeader(h: seq<byte>, s: seq<byte>, k: nat)
    requires |h| <= k < |h + s|
    ensures (h + s)[..k] == h + s[..k - |h|]
  {
  }

  /** A frame cut short anywhere is not accepted: the reader waits for more. */
  lemma NoPrefixIsAccepted(m: Message, k: nat, now: Timeval)
    requires Sendable(m) && k < |Frame(m)|
    ensures ParseFrame(Frame(m)[..k], now) == Fail(EndOfInput)
  {
    if k < HEADER_SIZE {
      ParseHeaderLength(Frame(m)[..k]);
    } else {
      var h, s := HeaderBytes(Sized(m)), PayloadBytes(m.payload);
      CutAfterHeader(h, s, k);
      HeaderRoundTrip(Sized(m), s[..k - |h|]);
      SmallModulo(|s|);
    }
  }

  // ----- Streams of frames -----

  ghost predicate AllSendable(ms: seq<Message>) {
    forall i :: 0 <= i < |ms| ==> Sendable(ms[i])
  }

  function Concat(ms: seq<Message>): seq<byte>
    requires AllSendable(ms)
  {
    if ms == [] then [] else Frame(ms[0]) + Concat(ms[1..])
  }

  /** Reading one frame for each of the given times of receipt. */
  function ParseFrames(s: seq<byte>, times: seq<Timeval>): Parsed<seq<Message>>
    decreases |times|
  {
    if times == [] then Got([], s)
    else
      match ParseFrame(s, times[0])
      case Fail(e) => Fail(e)
      case Got(m, s1) =>
        match ParseFrames(s1, times[1..])
        case Fail(e) => Fail(e)
        case Got(ms, s2) => Got([m] + ms, s2)
  }

  function AllReceived(ms: seq<Message>, times: seq<Timeval>): seq<Message>
    requires |ms| == |times|
    requires AllSendable(ms)
  {
    if ms == [] then [] else [Received(ms[0], times[0])] + AllReceived(ms[1..], times[1..])
  }

  /** Any list of messages written one after the other is read back as that list,
      up to the stamps of receipt, with the rest of the stream untouched. */
  lemma {:induction false} StreamRoundTrip(ms: seq<Message>, times: seq<Timeval>, rest: seq<byte>)
    requires AllSendable(ms) && |times| == |ms|
    ensures ParseFrames(Concat(ms) + rest, times) == Got(AllReceived(ms, times), rest)
    decreases |ms|
  {
    if ms == [] {
      assert [] + rest == rest;
    } else {
      assert Concat(ms) + rest == Frame(ms[0]) + (Concat(ms[1..]) + rest);
      SendableIsRead(ms[0], Concat(ms[1..]) + rest, times[0]);
      StreamRoundTrip(ms[1..], times[1..], rest);
    }
  }

  lemma NothingIsNoFrames(ms: seq<Message>)
    requires AllSendable(ms)
    ensures Concat(ms) == [] <==> ms == []
  {
    assert ms != [] ==> |Concat(ms)| >= |Frame(ms[0])|;
  }

  lemma FirstFramesAgree(ms: seq<Message>, ns: seq<Message>, now: Timeval)
    requires AllSendable(ms) && AllSendable(ns) && ms != [] && ns != []
    requires Concat(ms) == Concat(ns)
    ensures Received(ms[0], now) == Received(ns[0], now) && Concat(ms[1..]) == Concat(ns[1..])
  {
    SendableIsRead(ms[0], Concat(ms[1..]), now);
    SendableIsRead(ns[0], Concat(ns[1..]), now);
  }

  /** The same list of bytes cannot come from two different lists of messages: the
      stream needs no separators. */
  lemma StreamIsUnambiguous(ms: seq<Message>, ns: seq<Message>, times: seq<Timeval>, moreTimes: seq<Timeval>)
    requires AllSendable(ms) && AllSendable(ns) && Concat(ms) == Concat(ns)
    requires |times| == |ms| && |moreTimes| == |ns| && times <= moreTimes
    ensures |ms| == |ns| && AllReceived(ms, times) == AllReceived(ns, moreTimes)
    decreases |ms|
  {
    if ms == [] {
      NothingIsNoFrames(ns);
    } else {
      FirstFramesAgree(ms, ns, times[0]);
      StreamIsUnambiguous(ms[1..], ns[1..], times[1..], moreTimes[1..]);
    }
  }

  // ----- Reading and writing in place -----

  method WriteTwoFields(w: Writer, a: seq<byte>, b: seq<byte>)
    modifies w
    ensures w.out == old(w.out) + (Field(a) + Field(b))
  {
    w.WriteBytes(a);
    w.WriteBytes(b);
  }

  method WriteWireChunk(w: Writer, timestamp: Timeval, audio: seq<byte>)
    requires FitsWire(timestamp)
    modifies w
    ensures w.out == old(w.out) + (Tv(timestamp) + Field(audio))
  {
    w.WriteTimeval(timestamp);
    w.WriteBytes(audio);
  }

  method WriteError(w: Writer, code: u32, error: seq<byte>, message: seq<byte>)
    modifies w
    ensures w.out == old(w.out) + (U32(code) + (Field(error) + Field(message)))
  {
    ghost var start := w.out;
    w.WriteU32(code);
    WriteTwoFields(w, error, message);
    assert start + U32(code) + (Field(error) + Field(message)) == start + (U32(code) + (Field(error) + Field(message)));
  }

  method WritePayload(w: Writer, p: Payload)
    requires StampsFit(p)
    modifies w
    ensures w.out == old(w.out) + PayloadBytes(p)
  {
    match p
    case Time(latency) => w.WriteTimeval(latency);
    case Hello(json) => w.WriteBytes(json);
    case ServerSettings(json) => w.WriteBytes(json);
    case CodecHeader(codec, header) => WriteTwoFields(w, codec, header);
    case WireChunk(timestamp, audio) => WriteWireChunk(w, timestamp, audio);
    case ClientInfo(json) => w.WriteBytes(json);
    case Error(code, error, message) => WriteError(w, code, error, message);
    case StreamTags(raw) => w.out := w.out + raw;
  }

  method WriteHeader(w: Writer, b: BaseMessage)
    requires BaseFits(b)
    modifies w
    ensures w.out == old(w.out) + HeaderBytes(b)
  {
    ghost var start := w.out;
    w.WriteU16(ToU16(b.msgType));
    w.WriteU16(b.id);
    w.WriteU16(b.refersTo);
    w.WriteTimeval(b.sent);
    w.WriteTimeval(b.received);
    w.WriteU32(b.size);
    RegroupSix(start, U16(ToU16(b.msgType)), U16(b.id), U16(b.refersTo), Tv(b.sent), Tv(b.received), U32(b.size));
  }

  /** Builds the payload first, then the header that announces its size. */
  method Serialize(m: Message) returns (base: BaseMessage, frame: seq<byte>)
    requires MessageFits(m)
    ensures base == Sized(m) && frame == Frame(m)
  {
    var payload := new Writer();
    WritePayload(payload, m.payload);
    base := m.base.(size := |payload.out| % U32_SPAN);
    var w := new Writer();
    WriteHeader(w, base);
    frame := w.out + payload.out;
  }

  method ReadIds(r: Reader) returns (ids: Result<Ids>)
    requires r.Valid()
    modifies r
    ensures r.Valid() && Reads(ids, r.Rest(), ParseIds(old(r.Rest())))
  {
    var number :- r.ReadU16();
    var id :- r.ReadU16();
    var refersTo :- r.ReadU16();
    ids := Ok(Ids(FromU16(number), id, refersTo));
  }

  method ReadStamps(r: Reader) returns (stamps: Result<Stamps>)
    requires r.Valid()
    modifies r
    ensures r.Valid() && Reads(stamps, r.Rest(), ParseStamps(old(r.Rest())))
  {
    var sent :- r.ReadTimeval();
    var received :- r.ReadTimeval();
    var size :- r.ReadU32();
    stamps := Ok(Stamps(sent, received, size));
  }

  method ReadHeader(r: Reader) returns (b: Result<BaseMessage>)
    requires r.Valid()
    modifies r
    ensures r.Valid() && Reads(b, r.Rest(), ParseHeader(old(r.Rest())))
  {
    var ids :- ReadIds(r);
    var stamps :- ReadStamps(r);
    b := Ok(BaseMessage(ids.msgType, ids.id, ids.refersTo, stamps.sent, stamps.received, stamps.size));
  }

  method ReadTime(r: Reader) returns (p: Result<Payload>)
    requires r.Valid()
    modifies r
    ensures r.Valid() && Reads(p, r.Rest(), ParseTime(old(r.Rest())))
  {
    var latency :- r.ReadTimeval();
    p := Ok(Time(latency));
  }

  method ReadJson(t: MessageType, r: Reader) returns (p: Result<Payload>)
    requires r.Valid()
    modifies r
    ensures r.Valid() && Reads(p, r.Rest(), ParseJson(t, old(r.Rest())))
  {
    var json :- r.ReadBytes();
    match t
    case TypeHello => p := Ok(Hello(json));
    case TypeServerSettings => p := Ok(ServerSettings(json));
    case _ => p := Ok(ClientInfo(json));
  }

  method ReadTwoFields(r: Reader) returns (f: Result<(seq<byte>, seq<byte>)>)
    requires r.Valid()
    modifies r
    ensures r.Valid() && Reads(f, r.Rest(), ParseTwoFields(old(r.Rest())))
  {
    var a :- r.ReadBytes();
    var b :- r.ReadBytes();
    f := Ok((a, b));
  }

  method ReadCodecHeader(r: Reader) returns (p: Result<Payload>)
    requires r.Valid()
    modifies r
    ensures r.Valid() && Reads(p, r.Rest(), ParseCodecHeader(old(r.Rest())))
  {
    var f :- ReadTwoFields(r);
    p := Ok(CodecHeader(f.0, f.1));
  }

  method ReadWireChunk(r: Reader) returns (p: Result<Payload>)
    requires r.Valid()
    modifies r
    ensures r.Valid() && Reads(p, r.Rest(), ParseWireChunk(old(r.Rest())))
  {
    var timestamp :- r.ReadTimeval();
    var audio :- r.ReadBytes();
    p := Ok(WireChunk(timestamp, audio));
  }

  method ReadError(r: Reader) returns (p: Result<Payload>)
    requires r.Valid()
    modifies r
    ensures r.Valid() && Reads(p, r.Rest(), ParseError(old(r.Rest())))
  {
    var code :- r.ReadU32();
    var f :- ReadTwoFields(r);
    p := Ok(Error(code, f.0, f.1));
  }

  /** The payload read from a stream, with what follows it. */
  ghost predicate Delivers(p: Result<Payload>, parsed: Parsed<Payload>) {
    match parsed
    case Got(v, _) => p == Ok(v)
    case Fail(e) => p == Err(e)
  }

  /** Bytes a payload leaves over are ignored. */
  method ReadRaw(t: MessageType, payload: seq<byte>) returns (p: Result<Payload>)
    ensures Delivers(p, ParseRaw(t, payload))
  {
    var r := new Reader(payload);
    match t
    case TypeTime => p := ReadTime(r);
    case TypeHello => p := ReadJson(t, r);
    case TypeServerSettings => p := ReadJson(t, r);
    case TypeCodecHeader => p := ReadCodecHeader(r);
    case TypeWireChunk => p := ReadWireChunk(r);
    case TypeClientInfo => p := ReadJson(t, r);
    case TypeError => p := ReadError(r);
    case _ => p := Ok(StreamTags(payload));
  }

  /** Every text is decoded as it is read. */
  method ReadPayload(t: MessageType, payload: seq<byte>) returns (p: Result<Payload>)
    ensures Delivers(p, ParsePayload(t, payload))
  {
    var raw :- ReadRaw(t, payload);
    p := Ok(Decoded(raw));
  }

  method Deserialize(base: BaseMessage, payload: seq<byte>) returns (m: Result<Message>)
    ensures match ParsePayload(base.msgType, payload)
            case Got(p, _) => m == Ok(Message(base, p))
            case Fail(e) => m == Err(e)
  {
    var p :- ReadPayload(base.msgType, payload);
    m := Ok(Message(base, p));
  }

  /** The payload: the announced size is checked, then the buffer filled. */
  method ReadBody(r: Reader, base: BaseMessage) returns (m: Result<Message>)
    requires r.Valid()
    modifies r
    ensures r.Valid() && Reads(m, r.Rest(), ParseBody(base, old(r.Rest())))
  {
    if base.size > MAX_PAYLOAD {
      return Err(TooLarge(base.size));
    }
    var payloadBuf: seq<byte> := [];
    if base.size > 0 {
      payloadBuf :- r.ReadExact(base.size);
    }
    m := Deserialize(base, payloadBuf);
  }

  /** Fills the header buffer and parses it. */
  method ReadBase(r: Reader) returns (b: Result<BaseMessage>)
    requires r.Valid()
    modifies r
    ensures r.Valid() && Reads(b, r.Rest(), ParseHeader(old(r.Rest())))
  {
    HeaderFromBuffer(r.Rest());
    var headerBuf :- r.ReadExact(HEADER_SIZE);
    var header := new Reader(headerBuf);
    b := ReadHeader(header);
  }

  /** Reads the header, stamps it, then reads the payload. */
  method ReadFrame(r: Reader, now: Timeval) returns (m: Result<Message>)
    requires r.Valid()
    modifies r
    ensures r.Valid() && Reads(m, r.Rest(), ParseFrame(old(r.Rest()), now))
  {
    var base :- ReadBase(r);
    m := ReadBody(r, base.(received := now));
  }
}
