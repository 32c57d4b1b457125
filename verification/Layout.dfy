/** The wire and file formats byte by byte, in the numbers of the protocol
    (crates/snapcast-proto/src/message, crates/snapcast-server/src/encoder,
    crates/snapcast-client/src/decoder/mod.rs). */
module Layout {
  import opened Arith
  import opened Bytes
  import opened Flac
  import opened Framing
  import opened Rechunk
  import opened SampleFormats
  import opened Timestamps
  import opened Utf8
  import opened Wav
  import opened Wire

  // ----- Numbers -----

  /** The bytes of a number, lowest first. */
  predicate LittleEndian2(v: int, s: seq<byte>) {
    |s| == 2 && v == s[0] as nat + 256 * s[1] as nat
  }

  predicate LittleEndian4(v: int, s: seq<byte>) {
    |s| == 4 && v == s[0] as nat + 256 * s[1] as nat + 65_536 * s[2] as nat + 16_777_216 * s[3] as nat
  }

  /** Two's complement, lowest byte first. */
  predicate TwosComplement4(v: int, s: seq<byte>) {
    LittleEndian4(if v < 0 then v + 4_294_967_296 else v, s)
  }

  lemma NumbersAreLittleEndian(a: u16, b: u32, c: i32)
    ensures LittleEndian2(a, U16(a)) && LittleEndian4(b, U32(b)) && TwosComplement4(c, I32(c))
  {
    DigitsOf(b);
    DigitsOf(Unsigned(c));
    assert FitsI32(c);
  }

  lemma DigitsOf(v: u32)
    ensures LittleEndian4(v, U32(v))
  {
    var low, high := v % U16_SPAN, v / U16_SPAN;
    assert v == low + 65_536 * high;
    assert low == low % 256 + 256 * (low / 256) && high == high % 256 + 256 * (high / 256);
  }

  /** A timestamp is its seconds and then its microseconds. */
  predicate TimestampAt(t: Timeval, s: seq<byte>) {
    |s| == 8 && TwosComplement4(t.sec, s[..4]) && TwosComplement4(t.usec, s[4..])
  }

  lemma TimestampBytes(t: Timeval)
    requires FitsWire(t)
    ensures TimestampAt(t, Tv(t))
  {
    NumbersAreLittleEndian(0, 0, t.sec);
    NumbersAreLittleEndian(0, 0, t.usec);
    assert Tv(t)[..4] == I32(t.sec) && Tv(t)[4..] == I32(t.usec);
  }

  /** A field is its length and then its bytes. */
  predicate FieldAt(data: seq<byte>, s: seq<byte>) {
    |s| == 4 + |data| && LittleEndian4(|data|, s[..4]) && s[4..] == data
  }

  lemma FieldBytes(data: seq<byte>)
    requires |data| < 4_294_967_296
    ensures FieldAt(data, Field(data))
  {
    NumbersAreLittleEndian(0, |data|, 0);
    assert Field(data)[..4] == U32(|data|) && Field(data)[4..] == data;
  }

  // ----- Frames -----

  /** The number a payload goes under; 6 and every number that means nothing else carry
      raw bytes. */
  predicate NumberOf(p: Payload, number: nat) {
    match p
    case CodecHeader(_, _) => number == 1
    case WireChunk(_, _) => number == 2
    case ServerSettings(_) => number == 3
    case Time(_) => number == 4
    case Hello(_) => number == 5
    case ClientInfo(_) => number == 7
    case Error(_, _, _) => number == 8
    case StreamTags(_) => number == 0 || number == 6 || number > 8
  }

  lemma TypeInNumbers(t: MessageType, p: Payload)
    requires TypeMatches(t, p) && Canonical(t)
    ensures NumberOf(p, ToU16(t))
    ensures t.TypeBase? <==> ToU16(t) == 0
    ensures t.TypeStreamTags? <==> ToU16(t) == 6
  {
  }

  /** The 26 bytes of a header: number, id, the id referred to, two stamps, size. */
  lemma HeaderLayout(b: BaseMessage)
    requires BaseFits(b)
    ensures var h := HeaderBytes(b);
            && |h| == 26
            && LittleEndian2(ToU16(b.msgType), h[0..2]) && LittleEndian2(b.id, h[2..4])
            && LittleEndian2(b.refersTo, h[4..6])
            && TimestampAt(b.sent, h[6..14]) && TimestampAt(b.received, h[14..22])
            && LittleEndian4(b.size, h[22..26])
  {
    var h := HeaderBytes(b);
    NumbersAreLittleEndian(ToU16(b.msgType), b.size, 0);
    NumbersAreLittleEndian(b.id, 0, 0);
    NumbersAreLittleEndian(b.refersTo, 0, 0);
    TimestampBytes(b.sent);
    TimestampBytes(b.received);
    assert h[0..2] == U16(ToU16(b.msgType)) && h[2..4] == U16(b.id) && h[4..6] == U16(b.refersTo);
    assert h[6..14] == Tv(b.sent) && h[14..22] == Tv(b.received) && h[22..26] == U32(b.size);
  }

  /** The bytes of every kind of payload. */
  lemma PayloadLayout(p: Payload)
    requires StampsFit(p) && |PayloadBytes(p)| < 4_294_967_296
    ensures var s := PayloadBytes(p);
            match p
            case Time(latency) => TimestampAt(latency, s)
            case Hello(json) => FieldAt(json, s)
            case ServerSettings(json) => FieldAt(json, s)
            case ClientInfo(json) => FieldAt(json, s)
            case CodecHeader(codec, header) =>
              |s| >= 4 + |codec| && FieldAt(codec, s[..4 + |codec|]) && FieldAt(header, s[4 + |codec|..])
            case WireChunk(timestamp, audio) =>
              |s| >= 8 && TimestampAt(timestamp, s[..8]) && FieldAt(audio, s[8..])
            case Error(code, error, message) =>
              && |s| >= 8 + |error| && LittleEndian4(code, s[..4]) && FieldAt(error, s[4..8 + |error|])
              && FieldAt(message, s[8 + |error|..])
            case StreamTags(raw) => s == raw
  {
    var s := PayloadBytes(p);
    match p
    case Time(latency) => TimestampBytes(latency);
    case Hello(json) => FieldBytes(json);
    case ServerSettings(json) => FieldBytes(json);
    case ClientInfo(json) => FieldBytes(json);
    case CodecHeader(codec, header) =>
      FieldBytes(codec);
      FieldBytes(header);
      assert s[..4 + |codec|] == Field(codec) && s[4 + |codec|..] == Field(header);
    case WireChunk(timestamp, audio) =>
      TimestampBytes(timestamp);
      FieldBytes(audio);
      assert s[..8] == Tv(timestamp) && s[8..] == Field(audio);
    case Error(code, error, message) =>
      NumbersAreLittleEndian(0, code, 0);
      FieldBytes(error);
      FieldBytes(message);
      assert s[..4] == U32(code) && s[4..8 + |error|] == Field(error) && s[8 + |error|..] == Field(message);
    case StreamTags(_) =>
  }

  /** A frame begins with the number of its payload's kind, and is as long as its header
      says: 26 bytes and the size at bytes 22 to 25. */
  lemma FrameLayout(m: Message)
    requires MessageFits(m) && Canonical(m.base.msgType) && |PayloadBytes(m.payload)| < 4_294_967_296
    ensures var f, n := Frame(m), |PayloadBytes(m.payload)|;
            && |f| == 26 + n && f[26..] == PayloadBytes(m.payload)
            && (exists number: nat :: NumberOf(m.payload, number) && LittleEndian2(number, f[0..2]))
            && LittleEndian2(m.base.id, f[2..4]) && LittleEndian2(m.base.refersTo, f[4..6])
            && TimestampAt(m.base.sent, f[6..14]) && LittleEndian4(n, f[22..26])
  {
    var f, h := Frame(m), HeaderBytes(Sized(m));
    HeaderLayout(Sized(m));
    TypeInNumbers(m.base.msgType, m.payload);
    assert f[..26] == h && f[26..] == PayloadBytes(m.payload);
    assert f[0..2] == h[0..2] && f[2..4] == h[2..4] && f[4..6] == h[4..6];
    assert f[6..14] == h[6..14] && f[22..26] == h[22..26];
  }

  /** Payloads up to 2,097,152 bytes are read, and none longer. */
  lemma LimitInNumbers(m: Message, rest: seq<byte>, now: Timeval)
    requires MessageFits(m)
    ensures ParseFrame(Frame(m) + rest, now) == Got(Received(m, now), rest)
       <==> |PayloadBytes(m.payload)| <= 2_097_152
  {
    FrameRoundTrip(m, rest, now);
  }

  // ----- Samples -----

  /** Two's complement in two bytes, lowest first. */
  predicate TwosComplement2(v: int, s: seq<byte>) {
    LittleEndian2(if v < 0 then v + 65_536 else v, s)
  }

  /** A sample of two or four bytes is the number they are the two's complement of, and
      lies in its range. */
  lemma SampleInNumbers(s: seq<byte>)
    ensures |s| == 2 ==> TwosComplement2(SampleValue(s), s) && -32_768 <= SampleValue(s) < 32_768
    ensures |s| == 4 ==> TwosComplement4(SampleValue(s), s) && -2_147_483_648 <= SampleValue(s) < 2_147_483_648
  {
  }

  /** Sample k of a chunk is that of its k-th `size` bytes. */
  lemma SampleAt(pcm: seq<byte>, size: nat, k: nat)
    requires (size == 2 || size == 4) && k < |Samples(pcm, size)|
    ensures (k + 1) * size <= |pcm| && Samples(pcm, size)[k] == SampleValue(pcm[k * size..(k + 1) * size])
  {
    BlockAt(pcm, size, k);
  }

  /** A FLAC block is 1152 frames of every channel. */
  lemma BlockInNumbers(e: FlacEncoder)
    requires e.Valid()
    ensures e.blockSamples == 1152 * e.channels
  {
    TimesIsProduct(1152, e.channels);
  }

  // ----- The WAV header -----

  /** The 44 bytes of the header. Byte rate and block alignment are cut to their fields. */
  lemma WavLayout(f: SampleFormat)
    requires FitsFields(f)
    ensures var h := WavHeader(f);
            var align := (f.channels * f.SampleSize()) % 65_536;
            && |h| == 44
            && h[0..4] == [0x52, 0x49, 0x46, 0x46] && LittleEndian4(36, h[4..8]) && h[8..12] == [0x57, 0x41, 0x56, 0x45]
            && h[12..16] == [0x66, 0x6d, 0x74, 0x20] && LittleEndian4(16, h[16..20]) && LittleEndian2(1, h[20..22])
            && LittleEndian2(f.channels, h[22..24]) && LittleEndian4(f.rate, h[24..28])
            && LittleEndian4((f.rate * align) % 4_294_967_296, h[28..32]) && LittleEndian2(align, h[32..34])
            && LittleEndian2(f.bits, h[34..36])
            && h[36..40] == [0x64, 0x61, 0x74, 0x61] && LittleEndian4(0, h[40..44])
  {
    var h := WavHeader(f);
    TimesIsProduct(f.channels, f.SampleSize());
    TimesIsProduct(f.rate, BlockAlign(f));
    NumbersAreLittleEndian(1, 36, 0);
    NumbersAreLittleEndian(f.channels, 16, 0);
    NumbersAreLittleEndian(BlockAlign(f), f.rate, 0);
    NumbersAreLittleEndian(f.bits, ByteRate(f), 0);
    NumbersAreLittleEndian(0, 0, 0);
    WavSlices(f);
  }

  lemma WavSlices(f: SampleFormat)
    requires FitsFields(f)
    ensures var h := WavHeader(f);
            && |h| == 44 && h[0..4] == RIFF && h[4..8] == U32(36) && h[8..12] == WAVE
            && h[12..16] == FMT && h[16..20] == U32(16) && h[20..22] == U16(1)
            && h[22..24] == U16(f.channels) && h[24..28] == U32(f.rate) && h[28..32] == U32(ByteRate(f))
            && h[32..34] == U16(BlockAlign(f)) && h[34..36] == U16(f.bits)
            && h[36..40] == DATA && h[40..44] == U32(0)
  {
    var h := WavHeader(f);
    var fmt := FmtBody(f, 1, ByteRate(f), BlockAlign(f));
    var head, tail := RIFF + U32(36) + WAVE + (FMT + U32(16)), DATA + U32(0);
    FmtSlices(f, 1, ByteRate(f), BlockAlign(f));
    assert h == head + fmt + tail;
    assert head[0..4] == RIFF && head[4..8] == U32(36) && head[8..12] == WAVE;
    assert head[12..16] == FMT && head[16..20] == U32(16);
    Inside(head, fmt, tail);
  }

  lemma FmtSlices(f: SampleFormat, tag: u16, byteRate: u32, blockAlign: u16)
    requires FitsFields(f)
    ensures var s := FmtBody(f, tag, byteRate, blockAlign);
            && s[0..2] == U16(tag) && s[2..4] == U16(f.channels) && s[4..8] == U32(f.rate)
            && s[8..12] == U32(byteRate) && s[12..14] == U16(blockAlign) && s[14..16] == U16(f.bits)
  {
  }

  /** Slices of a part are slices of the whole. */
  lemma Inside(a: seq<byte>, b: seq<byte>, c: seq<byte>)
    ensures forall i, j :: 0 <= i <= j <= |a| ==> (a + b + c)[i..j] == a[i..j]
    ensures forall i, j :: 0 <= i <= j <= |b| ==> (a + b + c)[|a| + i..|a| + j] == b[i..j]
    ensures forall i, j :: 0 <= i <= j <= |c| ==> (a + b + c)[|a| + |b| + i..|a| + |b| + j] == c[i..j]
  {
  }

  /** What is refused before any chunk is looked at, and a format chunk cut short. */
  lemma RiffRefusals(payload: seq<byte>)
    ensures ParseRiff(payload) == Refused(TooSmall) <==> |payload| < 44
    ensures |payload| >= 44 ==>
              (ParseRiff(payload) == Refused(NotRiff)
               <==> payload[..4] != [0x52, 0x49, 0x46, 0x46] || payload[8..12] != [0x57, 0x41, 0x56, 0x45])
  {
    WalkRefusals(payload, 12, UNSET);
  }

  lemma {:induction false} WalkRefusals(s: seq<byte>, pos: nat, found: SampleFormat)
    ensures Walk(s, pos, found) !in {Refused(TooSmall), Refused(NotRiff), Refused(NoFormat)}
    decreases |s| - pos
  {
    if pos + 8 <= |s| && !KindAt(s, pos).DataChunk? && !(KindAt(s, pos).FmtChunk? && pos + 24 > |s|) {
      var next := if KindAt(s, pos).FmtChunk? then FmtAt(s, pos) else found;
      WalkRefusals(s, pos + 8 + SizeAt(s, pos), next);
    }
  }

  /** A format chunk needs 16 bytes behind its id and length. */
  lemma ShortFormatChunk(s: seq<byte>, pos: nat, found: SampleFormat)
    requires pos + 8 <= |s| < pos + 8 + 16 && s[pos..pos + 4] == [0x66, 0x6d, 0x74, 0x20]
    ensures Walk(s, pos, found) == Refused(FmtTooSmall)
  {
  }

  /** The whole frames at the front of a chunk. */
  lemma AlignedInNumbers(pcm: seq<byte>, frame: nat)
    requires frame > 0
    ensures (|pcm| / frame) * frame <= |pcm| && Aligned(pcm, frame) == pcm[..(|pcm| / frame) * frame]
  {
    QuotRem(|pcm|, frame);
    DivBounds(|pcm|, frame);
  }

  // ----- What is refused, and what is read -----

  /** A field is refused if it is longer than 2,097,152 bytes, whatever follows, and if it
      is cut short; otherwise it is read. */
  lemma FieldRefusals(s: seq<byte>)
    requires |s| >= 4
    ensures var n := s[0] as nat + 256 * s[1] as nat + 65_536 * s[2] as nat + 16_777_216 * s[3] as nat;
            && (n > 2_097_152 ==> ParseField(s) == Fail(TooLarge(n)))
            && (n <= 2_097_152 && |s| < 4 + n ==> ParseField(s) == Fail(EndOfInput))
            && (n <= 2_097_152 && |s| >= 4 + n ==> ParseField(s) == Got(s[4..4 + n], s[4 + n..]))
  {
    var n := s[0] as nat + 256 * s[1] as nat + 65_536 * s[2] as nat + 16_777_216 * s[3] as nat;
    if |s| >= 4 + n {
      assert s[4..][..n] == s[4..4 + n] && s[4..][n..] == s[4 + n..];
    }
  }

  lemma ShortFieldRefused(s: seq<byte>)
    requires |s| < 4
    ensures ParseField(s) == Fail(EndOfInput)
  {
  }

  /** Every text of a payload that was read is valid, and raw bytes are as they came. */
  lemma TextsInPayloads(t: MessageType, s: seq<byte>)
    requires ParsePayload(t, s).Got?
    ensures match ParsePayload(t, s).value
            case Hello(json) => IsUtf8(json)
            case ServerSettings(json) => IsUtf8(json)
            case ClientInfo(json) => IsUtf8(json)
            case CodecHeader(codec, _) => IsUtf8(codec)
            case Error(_, error, message) => IsUtf8(error) && IsUtf8(message)
            case StreamTags(raw) => raw == s
            case _ => true
  {
    PayloadExact(t, s);
    RawExact(t, s);
  }

  /** A message as it is received: the same, but for the stamp and the size. */
  lemma ReceivedInNumbers(m: Message, now: Timeval)
    requires PayloadFits(m.payload) && |PayloadBytes(m.payload)| < 4_294_967_296
    ensures var r := Received(m, now);
            && r.payload == m.payload && r.base.msgType == m.base.msgType && r.base.id == m.base.id
            && r.base.refersTo == m.base.refersTo && r.base.sent == m.base.sent && r.base.received == now
            && r.base.size == |PayloadBytes(m.payload)|
  {
  }
}
