/** The WAV header PCM streams start with: built by the server
    (crates/snapcast-server/src/encoder/pcm.rs), parsed by the client
    (crates/snapcast-client/src/decoder/mod.rs). */
module Wav {
  import opened Arith
  import opened Bytes
  import opened SampleFormats
  import opened Wire

  const RIFF: seq<byte> := [0x52, 0x49, 0x46, 0x46]
  const WAVE: seq<byte> := [0x57, 0x41, 0x56, 0x45]
  const FMT: seq<byte> := [0x66, 0x6d, 0x74, 0x20]
  const DATA: seq<byte> := [0x64, 0x61, 0x74, 0x61]

  const HEADER_LENGTH: nat := 44

  predicate FitsFields(f: SampleFormat) {
    f.rate < U32_SPAN && f.bits < U16_SPAN && f.channels < U16_SPAN
  }

  // ----- Parsing -----

  datatype RiffError = TooSmall | NotRiff | FmtTooSmall | NoFormat

  datatype RiffResult = Format(format: SampleFormat) | Refused(error: RiffError)

  function U16At(s: seq<byte>, at: nat): nat
    requires at + 2 <= |s|
  {
    s[at] as nat + 0x100 * (s[at + 1] as nat)
  }

  function U32At(s: seq<byte>, at: nat): nat
    requires at + 4 <= |s|
  {
    U16At(s, at) + U16_SPAN * U16At(s, at + 2)
  }

  /** The fields of the format chunk whose id is at this position; the fields
      between them are skipped. */
  function FmtAt(payload: seq<byte>, pos: nat): SampleFormat
    requires pos + 24 <= |payload|
  {
    SampleFormat(U32At(payload, pos + 12), U16At(payload, pos + 22), U16At(payload, pos + 10))
  }

  /** The length of the body of the chunk at this position. */
  function SizeAt(payload: seq<byte>, pos: nat): nat
    requires pos + 8 <= |payload|
  {
    U32At(payload, pos + 4)
  }

  const UNSET: SampleFormat := SampleFormat(0, 0, 0)

  datatype ChunkKind = FmtChunk | DataChunk | OtherChunk

  /** What the id of the chunk at this position says. */
  function KindAt(payload: seq<byte>, pos: nat): ChunkKind
    requires pos + 4 <= |payload|
  {
    if payload[pos..pos + 4] == FMT then FmtChunk
    else if payload[pos..pos + 4] == DATA then DataChunk
    else OtherChunk
  }

  /** The chunk list from this position on: format chunks are taken over, the data
      chunk ends the walk, others are skipped. */
  function Walk(s: seq<byte>, pos: nat, found: SampleFormat): RiffResult
    decreases |s| - pos
  {
    if pos + 8 > |s| then Format(found)
    else
      match KindAt(s, pos)
      case FmtChunk =>
        if pos + 24 > |s| then Refused(FmtTooSmall)
        else Walk(s, pos + 8 + SizeAt(s, pos), FmtAt(s, pos))
      case DataChunk => Format(found)
      case OtherChunk => Walk(s, pos + 8 + SizeAt(s, pos), found)
  }

  function ParseRiff(payload: seq<byte>): RiffResult {
    if |payload| < HEADER_LENGTH then Refused(TooSmall)
    else if payload[..4] != RIFF || payload[8..12] != WAVE then Refused(NotRiff)
    else
      match Walk(payload, 12, UNSET)
      case Refused(e) => Refused(e)
      case Format(f) => if f.rate == 0 then Refused(NoFormat) else Format(f)
  }

  /** The loop over a position in the payload: it ends on every input, and no read
      is out of bounds. */
  method ParseRiffHeader(payload: seq<byte>) returns (r: RiffResult)
    ensures r == ParseRiff(payload)
  {
    if |payload| < HEADER_LENGTH {
      return Refused(TooSmall);
    }
    if payload[..4] != RIFF || payload[8..12] != WAVE {
      return Refused(NotRiff);
    }
    r := WalkChunks(payload, 12);
    if r.Format? && r.format.rate == 0 {
      return Refused(NoFormat);
    }
  }

  method WalkChunks(payload: seq<byte>, start: nat) returns (r: RiffResult)
    ensures r == Walk(payload, start, UNSET)
  {
    var pos, found := start, UNSET;
    while pos + 8 <= |payload|
      invariant Walk(payload, pos, found) == Walk(payload, start, UNSET)
      decreases |payload| - pos
    {
      var kind, size := KindAt(payload, pos), SizeAt(payload, pos);
      if kind.FmtChunk? {
        if pos + 24 > |payload| {
          return Refused(FmtTooSmall);
        }
        found := FmtAt(payload, pos);
      } else if kind.DataChunk? {
        return Format(found);
      }
      pos := pos + 8 + size;
    }
    r := Format(found);
  }

  lemma ChunkOfSuffix(pre: seq<byte>, s: seq<byte>, pos: nat)
    requires pos + 8 <= |s|
    ensures KindAt(pre + s, |pre| + pos) == KindAt(s, pos) && SizeAt(pre + s, |pre| + pos) == SizeAt(s, pos)
    ensures pos + 24 <= |s| ==> FmtAt(pre + s, |pre| + pos) == FmtAt(s, pos)
  {
    assert (pre + s)[|pre| + pos..|pre| + pos + 4] == s[pos..pos + 4];
  }

  /** The walk looks at nothing before its position. */
  lemma {:induction false} WalkOfSuffix(pre: seq<byte>, s: seq<byte>, pos: nat, found: SampleFormat)
    ensures Walk(pre + s, |pre| + pos, found) == Walk(s, pos, found)
    decreases |s| - pos
  {
    if pos + 8 <= |s| {
      ChunkOfSuffix(pre, s, pos);
      var isFmt := KindAt(s, pos).FmtChunk? && pos + 24 <= |s|;
      WalkOfSuffix(pre, s, pos + 8 + SizeAt(s, pos), if isFmt then FmtAt(s, pos) else found);
    }
  }

  // ----- Building -----

  /** A chunk: id, length of the body, body. */
  function Chunk(id: seq<byte>, body: seq<byte>): seq<byte> {
    id + (U32(|body| % U32_SPAN) + body)
  }

  /** The body of a format chunk. Block alignment and byte rate are cut to their
      fields' widths. */
  function FmtBody(f: SampleFormat, tag: u16, byteRate: u32, blockAlign: u16): (s: seq<byte>)
    requires FitsFields(f)
    ensures |s| == 16
  {
    U16(tag) + (U16(f.channels) + (U32(f.rate) + (U32(byteRate) + (U16(blockAlign) + U16(f.bits)))))
  }

  function BlockAlign(f: SampleFormat): u16 {
    f.FrameSize() % U16_SPAN
  }

  function ByteRate(f: SampleFormat): u32 {
    Times(f.rate, BlockAlign(f)) % U32_SPAN
  }

  /** The 44-byte header: sizes as of a stream without end, tag 1 for plain PCM. */
  function WavHeader(f: SampleFormat): seq<byte>
    requires FitsFields(f)
  {
    Preamble(36) + (Chunk(FMT, FmtBody(f, 1, ByteRate(f), BlockAlign(f))) + Chunk(DATA, []))
  }

  function Preamble(size: u32): (s: seq<byte>)
    ensures |s| == 12
  {
    RIFF + (U32(size) + WAVE)
  }

  lemma U16Here(s: seq<byte>, at: nat, v: u16)
    requires at + 2 <= |s| && s[at..at + 2] == U16(v)
    ensures U16At(s, at) == v
  {
    assert s[at] == s[at..at + 2][0] && s[at + 1] == s[at..at + 2][1];
    assert v == v % 0x100 + 0x100 * (v / 0x100);
  }

  lemma U32Here(s: seq<byte>, at: nat, v: u32)
    requires at + 4 <= |s| && s[at..at + 4] == U32(v)
    ensures U32At(s, at) == v
  {
    assert s[at..at + 2] == s[at..at + 4][..2] == U16(v % U16_SPAN);
    assert s[at + 2..at + 4] == s[at..at + 4][2..] == U16(v / U16_SPAN);
    U16Here(s, at, v % U16_SPAN);
    U16Here(s, at + 2, v / U16_SPAN);
  }

  /** The parser picks the right fields out of a format chunk. */
  lemma FmtBodyFields(f: SampleFormat, tag: u16, byteRate: u32, blockAlign: u16, rest: seq<byte>)
    requires FitsFields(f)
    ensures FmtAt(Chunk(FMT, FmtBody(f, tag, byteRate, blockAlign)) + rest, 0) == f
  {
    var s := Chunk(FMT, FmtBody(f, tag, byteRate, blockAlign)) + rest;
    assert s[10..12] == U16(f.channels);
    assert s[12..16] == U32(f.rate);
    assert s[22..24] == U16(f.bits);
    U16Here(s, 10, f.channels);
    U32Here(s, 12, f.rate);
    U16Here(s, 22, f.bits);
  }

  /** Where the parts of a chunk are. */
  lemma ChunkParts(id: seq<byte>, body: seq<byte>, rest: seq<byte>, found: SampleFormat)
    requires |id| == 4 && |body| < U32_SPAN
    ensures var s := Chunk(id, body) + rest;
            && |s| == 8 + |body| + |rest| && s[0..4] == id && SizeAt(s, 0) == |body|
            && Walk(s, 8 + |body|, found) == Walk(rest, 0, found)
  {
    var s := Chunk(id, body) + rest;
    assert s[4..8] == U32(|body|);
    U32Here(s, 4, |body|);
    WalkOfSuffix(Chunk(id, body), rest, 0, found);
  }

  /** A chunk the parser does not know is skipped, whatever is in it. */
  lemma ForeignIsSkipped(id: seq<byte>, body: seq<byte>, rest: seq<byte>, found: SampleFormat)
    requires |id| == 4 && id != FMT && id != DATA && |body| < U32_SPAN
    ensures Walk(Chunk(id, body) + rest, 0, found) == Walk(rest, 0, found)
  {
    ChunkParts(id, body, rest, found);
  }

  lemma FmtIsTaken(f: SampleFormat, tag: u16, byteRate: u32, blockAlign: u16, rest: seq<byte>, found: SampleFormat)
    requires FitsFields(f)
    ensures Walk(Chunk(FMT, FmtBody(f, tag, byteRate, blockAlign)) + rest, 0, found) == Walk(rest, 0, f)
  {
    ChunkParts(FMT, FmtBody(f, tag, byteRate, blockAlign), rest, f);
    FmtBodyFields(f, tag, byteRate, blockAlign, rest);
  }

  /** The data chunk ends the walk; its size and contents are not looked at. */
  lemma DataEndsWalk(s: seq<byte>, found: SampleFormat)
    requires |s| >= 8 && s[..4] == DATA
    ensures Walk(s, 0, found) == Format(found)
  {
    assert s[0..4] == s[..4];
  }

  // ----- The inverse -----

  datatype ForeignChunk = ForeignChunk(id: seq<byte>, body: seq<byte>)

  predicate IsForeign(c: ForeignChunk) {
    |c.id| == 4 && c.id != FMT && c.id != DATA && |c.body| < U32_SPAN
  }

  function ForeignBytes(chunks: seq<ForeignChunk>): seq<byte> {
    if chunks == [] then [] else Chunk(chunks[0].id, chunks[0].body) + ForeignBytes(chunks[1..])
  }

  lemma {:induction false} AllForeignSkipped(chunks: seq<ForeignChunk>, rest: seq<byte>, found: SampleFormat)
    requires forall c :: c in chunks ==> IsForeign(c)
    ensures Walk(ForeignBytes(chunks) + rest, 0, found) == Walk(rest, 0, found)
  {
    if chunks == [] {
      assert [] + rest == rest;
    } else {
      var c := chunks[0];
      assert c in chunks;
      assert ForeignBytes(chunks) + rest == Chunk(c.id, c.body) + (ForeignBytes(chunks[1..]) + rest);
      ForeignIsSkipped(c.id, c.body, ForeignBytes(chunks[1..]) + rest, found);
      AllForeignSkipped(chunks[1..], rest, found);
    }
  }

  /** A WAV file as other programs may write it: any chunks before the format chunk,
      any contents after the id of the data chunk. */
  function WavFile(f: SampleFormat, size: u32, chunks: seq<ForeignChunk>, fmt: seq<byte>, rest: seq<byte>): seq<byte> {
    Preamble(size) + (ForeignBytes(chunks) + (Chunk(FMT, fmt) + rest))
  }

  lemma PreambleIsRead(size: u32, s: seq<byte>)
    requires |s| >= HEADER_LENGTH - 12
    ensures ParseRiff(Preamble(size) + s)
      == match Walk(s, 0, UNSET)
         case Refused(e) => Refused(e)
         case Format(f) => if f.rate == 0 then Refused(NoFormat) else Format(f)
  {
    var all := Preamble(size) + s;
    assert all[..4] == RIFF && all[8..12] == WAVE;
    WalkOfSuffix(Preamble(size), s, 0, UNSET);
  }

  /** The format is found behind any foreign chunks and whatever follows; it is
      refused exactly when its rate is zero. */
  lemma FormatIsFound(f: SampleFormat, size: u32, chunks: seq<ForeignChunk>, tag: u16, byteRate: u32,
                      blockAlign: u16, rest: seq<byte>)
    requires FitsFields(f) && forall c :: c in chunks ==> IsForeign(c)
    requires |rest| >= 8 && rest[..4] == DATA
    ensures ParseRiff(WavFile(f, size, chunks, FmtBody(f, tag, byteRate, blockAlign), rest))
      == if f.rate > 0 then Format(f) else Refused(NoFormat)
  {
    var body := FmtBody(f, tag, byteRate, blockAlign);
    PreambleIsRead(size, ForeignBytes(chunks) + (Chunk(FMT, body) + rest));
    AllForeignSkipped(chunks, Chunk(FMT, body) + rest, UNSET);
    FmtIsTaken(f, tag, byteRate, blockAlign, rest, UNSET);
    DataEndsWalk(rest, f);
  }

  /** Parsing the header the server builds gives the format back exactly when the
      rate is positive, even when alignment or byte rate overflow their fields. */
  lemma WavRoundTrip(f: SampleFormat)
    requires FitsFields(f)
    ensures |WavHeader(f)| == HEADER_LENGTH
    ensures ParseRiff(WavHeader(f)) == Format(f) <==> f.rate > 0
    ensures f.rate == 0 ==> ParseRiff(WavHeader(f)) == Refused(NoFormat)
  {
    var body := FmtBody(f, 1, ByteRate(f), BlockAlign(f));
    FormatIsFound(f, 36, [], 1, ByteRate(f), BlockAlign(f), Chunk(DATA, []));
    assert ForeignBytes([]) + (Chunk(FMT, body) + Chunk(DATA, [])) == Chunk(FMT, body) + Chunk(DATA, []);
  }

  // ----- Building in place -----

  method Put(h: array<byte>, at: nat, s: seq<byte>)
    requires at + |s| <= h.Length
    modifies h
    ensures h[..at + |s|] == old(h[..at]) + s
  {
    forall i | 0 <= i < |s| {
      h[at + i] := s[i];
    }
  }

  method PutFmtBody(h: array<byte>, at: nat, f: SampleFormat, byteRate: u32, blockAlign: u16)
    requires FitsFields(f) && at + 16 <= h.Length
    modifies h
    ensures h[..at + 16] == old(h[..at]) + FmtBody(f, 1, byteRate, blockAlign)
  {
    ghost var start := h[..at];
    Put(h, at, U16(1));
    Put(h, at + 2, U16(f.channels));
    Put(h, at + 4, U32(f.rate));
    Put(h, at + 8, U32(byteRate));
    Put(h, at + 12, U16(blockAlign));
    Put(h, at + 14, U16(f.bits));
    RegroupSix(start, U16(1), U16(f.channels), U32(f.rate), U32(byteRate), U16(blockAlign), U16(f.bits));
  }

  /** The format chunk, head and body. */
  method PutFmtChunk(h: array<byte>, at: nat, f: SampleFormat, byteRate: u32, blockAlign: u16)
    requires FitsFields(f) && at + 24 <= h.Length
    modifies h
    ensures h[..at + 24] == old(h[..at]) + Chunk(FMT, FmtBody(f, 1, byteRate, blockAlign))
  {
    ghost var start := h[..at];
    Put(h, at, FMT);
    Put(h, at + 4, U32(16));
    PutFmtBody(h, at + 8, f, byteRate, blockAlign);
    RegroupThree(start, FMT, U32(16), FmtBody(f, 1, byteRate, blockAlign));
  }

  lemma RegroupThree(s: seq<byte>, a: seq<byte>, b: seq<byte>, c: seq<byte>)
    ensures s + a + b + c == s + (a + (b + c))
  {
    assert s + a + b == s + (a + b);
  }

  /** The header filled in field by field. */
  method BuildWavHeader(f: SampleFormat) returns (h: array<byte>)
    requires FitsFields(f)
    ensures fresh(h) && h[..] == WavHeader(f)
  {
    h := new byte[HEADER_LENGTH](_ => 0);
    PutPreamble(h);
    PutFmtChunk(h, 12, f, ByteRate(f), BlockAlign(f));
    PutDataHead(h, 36);
    ghost var fmt := Chunk(FMT, FmtBody(f, 1, ByteRate(f), BlockAlign(f)));
    assert h[..] == h[..HEADER_LENGTH];
    assert Preamble(36) + fmt + Chunk(DATA, []) == Preamble(36) + (fmt + Chunk(DATA, []));
  }

  method PutPreamble(h: array<byte>)
    requires h.Length >= 12
    modifies h
    ensures h[..12] == Preamble(36)
  {
    Put(h, 0, RIFF);
    Put(h, 4, U32(36));
    Put(h, 8, WAVE);
  }

  method PutDataHead(h: array<byte>, at: nat)
    requires at + 8 <= h.Length
    modifies h
    ensures h[..at + 8] == old(h[..at]) + Chunk(DATA, [])
  {
    Put(h, at, DATA);
    Put(h, at + 4, U32(0));
  }
}
