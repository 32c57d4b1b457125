/** The block-buffering loop of the FLAC encoder
    (crates/snapcast-server/src/encoder/flac.rs). The encoding of one block is an
    arbitrary function of the block and its number. */
module Flac {
  import opened Arith
  import opened Bytes
  import opened Rechunk
  import opened SampleFormats
  import opened Timestamps
  import opened Wrappers

  /** Frames in a FLAC block. */
  const BLOCK_SIZE: nat := 1152

  // ----- Bytes to samples -----

  /** One little-endian signed sample of two or four bytes. */
  function SampleValue(b: seq<byte>): int {
    if |b| == 2 then
      var v := b[0] as int + 0x100 * (b[1] as int);
      if v < 0x8000 then v else v - 0x1_0000
    else if |b| == 4 then
      AsI32(b[0] as int + 0x100 * (b[1] as int) + 0x1_0000 * (b[2] as int) + 0x100_0000 * (b[3] as int))
    else 0
  }

  function Values(parts: seq<seq<byte>>): (r: seq<int>)
    ensures |r| == |parts| && forall k :: 0 <= k < |parts| ==> r[k] == SampleValue(parts[k])
  {
    seq(|parts|, i requires 0 <= i < |parts| => SampleValue(parts[i]))
  }

  /** The bytes of the whole frames at the front of a chunk. */
  function Aligned(pcm: seq<byte>, frame: nat): seq<byte>
    requires frame > 0
  {
    pcm[..|pcm| - Rem(|pcm|, frame)]
  }

  function Samples(pcm: seq<byte>, size: nat): seq<int>
    requires size == 2 || size == 4
  {
    Values(Blocks(pcm, size))
  }

  lemma {:induction false} BlockCount<T>(s: seq<T>, n: nat)
    requires n > 0
    ensures |Blocks(s, n)| == Quot(|s|, n)
    decreases |s|
  {
    if |s| >= n {
      BlockCount(s[n..], n);
    }
  }

  lemma AlignedLength(len: nat, frame: nat)
    requires frame > 0
    ensures Rem(len, frame) <= len && len - Rem(len, frame) == Times(Quot(len, frame), frame)
  {
    QuotRem(len, frame);
    TimesIsProduct(Quot(len, frame), frame);
  }

  lemma SamplesPerFrame(frames: nat, channels: nat, size: nat)
    requires size > 0
    ensures Quot(Times(frames, Times(channels, size)), size) == Times(frames, channels)
  {
    TimesIsProduct(frames, Times(channels, size));
    TimesIsProduct(channels, size);
    TimesIsProduct(frames, channels);
    assert frames * (channels * size) == (frames * channels) * size;
    DivMultiple(frames * channels, size);
    QuotRem(frames * channels * size, size);
  }

  lemma FrameIsPositive(channels: nat, size: nat)
    requires channels >= 1 && size >= 1
    ensures Times(channels, size) > 0
  {
    assert Times(channels, size) == Times(channels - 1, size) + size;
  }

  /** A chunk gives as many samples as its whole frames have channels between them. */
  lemma SamplesOfWholeFrames(pcm: seq<byte>, channels: nat, size: nat)
    requires channels >= 1 && (size == 2 || size == 4)
    ensures var frame := Times(channels, size);
            frame > 0 && |Samples(Aligned(pcm, frame), size)| == Times(Quot(|pcm|, frame), channels)
  {
    var frame := Times(channels, size);
    FrameIsPositive(channels, size);
    AlignedLength(|pcm|, frame);
    BlockCount(Aligned(pcm, frame), size);
    SamplesPerFrame(Quot(|pcm|, frame), channels, size);
  }

  // ----- Channel alignment -----

  lemma {:induction false} WholeTimes(k: nat, size: nat)
    requires size > 0
    ensures Whole(Times(k, size), size)
  {
    if k > 0 {
      WholeTimes(k - 1, size);
    }
  }

  lemma {:induction false} WholeSum(a: nat, b: nat, size: nat)
    requires size > 0 && Whole(a, size)
    ensures Whole(a + b, size) <==> Whole(b, size)
  {
    if a > 0 {
      WholeSum(a - size, b, size);
    }
  }

  lemma {:induction false} LeftoverIsWhole<T>(s: seq<T>, blockFrames: nat, channels: nat)
    requires channels > 0 && Times(blockFrames, channels) > 0 && Whole(|s|, channels)
    ensures Whole(|Leftover(s, Times(blockFrames, channels))|, channels)
    decreases |s|
  {
    var n := Times(blockFrames, channels);
    if |s| >= n {
      WholeTimes(blockFrames, channels);
      WholeSum(n, |s| - n, channels);
      LeftoverIsWhole(s[n..], blockFrames, channels);
    }
  }

  // ----- The encoder -----

  /** How one block is encoded, given its number; it may fail. */
  type BlockEncoder = (seq<int>, nat) -> Option<seq<byte>>

  /** Consecutive blocks, encoded with consecutive numbers, unless one of them fails. */
  function EncodeAll(blocks: seq<seq<int>>, first: nat, encodeBlock: BlockEncoder): Option<seq<byte>> {
    if blocks == [] then Some([])
    else
      var earlier := blocks[..|blocks| - 1];
      Joined(EncodeAll(earlier, first, encodeBlock), encodeBlock(blocks[|blocks| - 1], first + |earlier|))
  }

  function Joined(a: Option<seq<byte>>, b: Option<seq<byte>>): Option<seq<byte>> {
    if a.Some? && b.Some? then Some(a.value + b.value) else None
  }

  lemma {:induction false} EncodeAllAppend(a: seq<seq<int>>, b: seq<seq<int>>, first: nat, encodeBlock: BlockEncoder)
    ensures EncodeAll(a + b, first, encodeBlock)
      == Joined(EncodeAll(a, first, encodeBlock), EncodeAll(b, first + |a|, encodeBlock))
    decreases |b|
  {
    if b == [] {
      assert a + b == a;
      assert EncodeAll(a, first, encodeBlock).Some? ==>
          EncodeAll(a, first, encodeBlock).value + [] == EncodeAll(a, first, encodeBlock).value;
    } else {
      var n := |b| - 1;
      EncodeAllAppend(a, b[..n], first, encodeBlock);
      assert (a + b)[..|a + b| - 1] == a + b[..n];
      JoinedAssociates(EncodeAll(a, first, encodeBlock), EncodeAll(b[..n], first + |a|, encodeBlock),
                       encodeBlock(b[n], first + |a| + n));
    }
  }

  lemma JoinedAssociates(a: Option<seq<byte>>, b: Option<seq<byte>>, c: Option<seq<byte>>)
    ensures Joined(Joined(a, b), c) == Joined(a, Joined(b, c))
  {
    if a.Some? && b.Some? && c.Some? {
      assert (a.value + b.value) + c.value == a.value + (b.value + c.value);
    }
  }

  /** One block is encoded under the number it is given. */
  lemma OneBlock(block: seq<int>, number: nat, encodeBlock: BlockEncoder)
    ensures EncodeAll([block], number, encodeBlock) == encodeBlock(block, number)
    ensures EncodeAll([], number, encodeBlock) == Some([])
  {
    assert [block][..0] == [];
    var bytes := encodeBlock(block, number);
    assert bytes.Some? ==> [] + bytes.value == bytes.value;
  }

  lemma EncodeAllSnoc(a: seq<seq<int>>, block: seq<int>, first: nat, encodeBlock: BlockEncoder)
    ensures EncodeAll(a + [block], first, encodeBlock)
      == Joined(EncodeAll(a, first, encodeBlock), encodeBlock(block, first + |a|))
  {
    assert (a + [block])[..|a|] == a;
  }

  /** What encoding a chunk comes to. A block that fails is lost, and so are the bytes
      of the blocks before it in the same call. */
  datatype Encoded = Encoded(data: seq<byte>) | UnsupportedSampleSize | DividedByZero | BlockFailed

  /** These are the samples of the chunk's whole frames. */
  ghost predicate FromChunk(samples: seq<int>, pcm: seq<byte>, channels: nat, size: nat) {
    && (size == 2 || size == 4) && Times(channels, size) > 0
    && samples == Samples(Aligned(pcm, Times(channels, size)), size)
  }

  method ReadSamples(pcm: seq<byte>, size: nat) returns (samples: seq<int>)
    requires size == 2 || size == 4
    ensures samples == Samples(pcm, size)
  {
    samples := [];
    var rest := pcm;
    ghost var done: seq<seq<byte>> := [];
    while |rest| >= size
      invariant Cutting(pcm, done, rest, size)
      invariant samples == Values(done)
    {
      CutNext(pcm, done, rest, size);
      ValuesSnoc(done, rest[..size]);
      done := done + [rest[..size]];
      samples := samples + [SampleValue(rest[..size])];
      rest := rest[size..];
    }
    CutUp(pcm, done, rest, size);
  }

  /** The formats an encoder is made for, as far as it is asked; the FLAC library has
      a say as well. */
  predicate Supported(format: SampleFormat) {
    format.bits <= 24 && format.rate <= 96_000 && 1 <= format.channels <= 8
  }

  class FlacEncoder {
    const channels: nat
    const sampleSize: nat
    const blockSamples: nat
    const encodeBlock: BlockEncoder
    var pending: seq<int>
    var frameNumber: nat
    /** All samples taken in since construction, and the blocks cut from them. */
    ghost var taken: seq<int>
    ghost var blocks: seq<seq<int>>

    /** The blocks cut so far and the pending samples make up everything taken in. */
    ghost predicate Valid()
      reads this
    {
      && 1 <= channels <= 8 && blockSamples == Times(BLOCK_SIZE, channels) > 0
      && Cutting(taken, blocks, pending, blockSamples) && Whole(|taken|, channels)
    }

    /** No block has failed: the blocks are numbered 0, 1, 2, ..., and less than one
        is pending. */
    ghost predicate Unbroken()
      reads this
    {
      InOrder(blocks, pending, blockSamples, frameNumber, encodeBlock)
    }

    constructor (format: SampleFormat, encodeBlock: BlockEncoder)
      requires Supported(format)
      ensures Valid() && Unbroken() && taken == [] && blocks == []
      ensures channels == format.channels && sampleSize == format.SampleSize() && this.encodeBlock == encodeBlock
    {
      BlockIsPositive(format.channels);
      channels, sampleSize := format.channels, format.SampleSize();
      blockSamples := Times(BLOCK_SIZE, format.channels);
      this.encodeBlock := encodeBlock;
      pending, frameNumber, taken, blocks := [], 0, [], [];
    }

    /** The bytes of the blocks so far. */
    ghost function Stream(): seq<byte>
      reads this
      requires Unbroken()
    {
      EncodeAll(blocks, 0, encodeBlock).value
    }

    /** The program divides by the sample size before it looks at it. */
    method PcmToI32(pcm: seq<byte>) returns (samples: seq<int>, refused: Option<Encoded>)
      requires channels >= 1
      ensures refused == if sampleSize == 0 then Some(DividedByZero)
                         else if sampleSize != 2 && sampleSize != 4 then Some(UnsupportedSampleSize)
                         else None
      ensures refused == None ==> FromChunk(samples, pcm, channels, sampleSize)
    {
      samples := [];
      if sampleSize == 0 {
        return [], Some(DividedByZero);
      }
      if sampleSize != 2 && sampleSize != 4 {
        return [], Some(UnsupportedSampleSize);
      }
      refused := None;
      FrameIsPositive(channels, sampleSize);
      var frame := Times(channels, sampleSize);
      samples := ReadSamples(pcm[..|pcm| - Rem(|pcm|, frame)], sampleSize);
    }

    /** Takes one chunk in and returns the blocks it completes, encoded. */
    method Encode(pcm: seq<byte>) returns (r: Encoded, ghost samples: seq<int>, ghost cut: seq<seq<int>>)
      requires Valid()
      modifies this
      ensures Valid() && blocks == old(blocks) + cut
      ensures r.DividedByZero? <==> sampleSize == 0
      ensures r.UnsupportedSampleSize? <==> sampleSize != 0 && sampleSize != 2 && sampleSize != 4
      ensures r.DividedByZero? || r.UnsupportedSampleSize? ==>
                cut == [] && taken == old(taken) && pending == old(pending) && frameNumber == old(frameNumber)
      ensures sampleSize == 2 || sampleSize == 4 ==>
        && FromChunk(samples, pcm, channels, sampleSize) && taken == old(taken) + samples
        && Drained(r, old(pending) + samples, cut, pending, blockSamples, old(frameNumber), frameNumber, encodeBlock)
      ensures old(Unbroken()) && (sampleSize == 2 || sampleSize == 4) ==>
                (r.Encoded? <==> EncodeAll(Blocks(taken, blockSamples), 0, encodeBlock).Some?)
      ensures old(Unbroken()) && r.Encoded? ==> Unbroken() && Stream() == old(Stream()) + r.data
    {
      var decoded, refused := PcmToI32(pcm);
      samples, cut := decoded, [];
      if refused != None {
        assert blocks + [] == blocks;
        return refused.value, samples, [];
      }
      TakenIsWhole(taken, samples, pcm, channels, sampleSize);
      r, cut := TakeIn(decoded);
    }

    /** Takes any list of chunks in, up to a block that fails: the bytes returned are
        those of all blocks of everything taken in, however it was split. */
    method EncodeChunks(chunks: seq<seq<byte>>) returns (r: Encoded)
      requires Valid() && Unbroken() && (sampleSize == 2 || sampleSize == 4) && Times(channels, sampleSize) > 0
      modifies this
      ensures Valid()
      ensures r == FromStream(AsStream(old(taken), chunks), |old(Stream())|)
      ensures r.Encoded? ==> Unbroken() && TakenIn(taken, old(taken), chunks)
    {
      ghost var start, stream := taken, Stream();
      var out: seq<byte> := [];
      NothingTaken(start);
      for i := 0 to |chunks|
        invariant Valid() && Unbroken() && TakenIn(taken, start, chunks[..i])
        invariant Stream() == stream + out
      {
        NextTaken(start, chunks, i);
        var encoded := EncodeNext(chunks[i]);
        if !encoded.Encoded? {
          FailsForGood(taken, start, chunks, i + 1);
          return BlockFailed;
        }
        Associate(stream, out, encoded.data);
        out := out + encoded.data;
      }
      assert chunks[..|chunks|] == chunks;
      AllEncoded(start, chunks, stream, out);
      r := Encoded(out);
    }

    /** What has been taken in is what was before and these chunks. */
    ghost predicate TakenIn(now: seq<int>, before: seq<int>, chunks: seq<seq<byte>>)
      requires Times(channels, sampleSize) > 0 && (sampleSize == 2 || sampleSize == 4)
    {
      now == before + AllSamples(chunks, Times(channels, sampleSize), sampleSize)
    }

    lemma NothingTaken(start: seq<int>)
      requires Times(channels, sampleSize) > 0 && (sampleSize == 2 || sampleSize == 4)
      ensures forall chunks: seq<seq<byte>> :: chunks == [] ==> TakenIn(start, start, chunks)
    {
    }

    lemma NextTaken(start: seq<int>, chunks: seq<seq<byte>>, i: nat)
      requires Times(channels, sampleSize) > 0 && (sampleSize == 2 || sampleSize == 4) && i < |chunks|
      ensures forall now :: TakenIn(now, start, chunks[..i]) ==>
                TakenIn(now + ChunkSamples(chunks[i], Times(channels, sampleSize), sampleSize), start, chunks[..i + 1])
    {
      NextChunk(start, chunks, i, Times(channels, sampleSize), sampleSize);
    }

    lemma FailsForGood(now: seq<int>, start: seq<int>, chunks: seq<seq<byte>>, k: nat)
      requires Times(channels, sampleSize) > 0 && (sampleSize == 2 || sampleSize == 4) && k <= |chunks|
      requires blockSamples > 0 && TakenIn(now, start, chunks[..k])
      requires EncodeAll(Blocks(now, blockSamples), 0, encodeBlock).None?
      ensures AsStream(start, chunks) == None
    {
      LaterChunksDoNotHelp(start, chunks, k, Times(channels, sampleSize), sampleSize, blockSamples, encodeBlock);
    }

    lemma AllEncoded(start: seq<int>, chunks: seq<seq<byte>>, stream: seq<byte>, out: seq<byte>)
      requires Valid() && Unbroken() && (sampleSize == 2 || sampleSize == 4) && Times(channels, sampleSize) > 0
      requires TakenIn(taken, start, chunks) && Stream() == stream + out
      ensures FromStream(AsStream(start, chunks), |stream|) == Encoded(out)
    {
      CutUp(taken, blocks, pending, blockSamples);
    }

    /** The encoding of all blocks of what was taken in before and these chunks. */
    ghost function AsStream(before: seq<int>, chunks: seq<seq<byte>>): Option<seq<byte>>
      requires blockSamples > 0 && Times(channels, sampleSize) > 0 && (sampleSize == 2 || sampleSize == 4)
    {
      EncodeAll(Blocks(before + AllSamples(chunks, Times(channels, sampleSize), sampleSize), blockSamples), 0, encodeBlock)
    }

    method EncodeNext(chunk: seq<byte>) returns (r: Encoded)
      requires Valid() && Unbroken() && (sampleSize == 2 || sampleSize == 4) && Times(channels, sampleSize) > 0
      modifies this
      ensures Valid() && taken == old(taken) + ChunkSamples(chunk, Times(channels, sampleSize), sampleSize)
      ensures r.Encoded? || r.BlockFailed?
      ensures r.Encoded? <==> EncodeAll(Blocks(taken, blockSamples), 0, encodeBlock).Some?
      ensures r.Encoded? ==> Unbroken() && Stream() == old(Stream()) + r.data
    {
      ghost var samples, cut;
      r, samples, cut := Encode(chunk);
    }

    method TakeIn(samples: seq<int>) returns (r: Encoded, ghost cut: seq<seq<int>>)
      requires Valid() && Whole(|taken + samples|, channels)
      modifies this
      ensures Drained(r, old(pending) + samples, cut, pending, blockSamples, old(frameNumber), frameNumber, encodeBlock)
      ensures old(Unbroken()) ==> WentOn(r, Blocks(taken, blockSamples), old(blocks), cut, frameNumber, encodeBlock)
      ensures Valid() && taken == old(taken) + samples && blocks == old(blocks) + cut
    {
      ghost var n, done, whole, left := blockSamples, blocks, taken + samples, pending + samples;
      CuttingGrows(taken, done, pending, n, samples);
      taken := whole;
      pending := pending + samples;
      r, cut := Drain();
      CuttingJoins(whole, done, left, cut, pending, n);
      if old(Unbroken()) {
        GoesOn(done, Blocks(left, n), cut, frameNumber, r, encodeBlock);
      }
      blocks := done + cut;
    }

    /** Encodes every full block of the pending samples, or stops at one that fails. */
    method Drain() returns (r: Encoded, ghost cut: seq<seq<int>>)
      requires blockSamples > 0
      modifies this`pending, this`frameNumber
      ensures Drained(r, old(pending), cut, pending, blockSamples, old(frameNumber), frameNumber, encodeBlock)
    {
      var out: seq<byte> := [];
      ghost var whole, first := pending, frameNumber;
      cut := [];
      while |pending| >= blockSamples
        invariant frameNumber == first + |cut|
        invariant SoFar(whole, cut, pending, blockSamples, first, out, encodeBlock)
      {
        var encoded;
        encoded, cut := EncodeOne(whole, cut, first, out);
        if encoded == None {
          return BlockFailed, cut;
        }
        out := out + encoded.value;
      }
      LastBlock(whole, cut, pending, blockSamples, first, out, encodeBlock);
      r := Encoded(out);
    }

    /** Takes the first block off the pending samples and encodes it. */
    method EncodeOne(ghost whole: seq<int>, ghost cut: seq<seq<int>>, ghost first: nat, ghost out: seq<byte>)
      returns (encoded: Option<seq<byte>>, ghost next: seq<seq<int>>)
      requires SoFar(whole, cut, pending, blockSamples, first, out, encodeBlock)
      requires |pending| >= blockSamples && frameNumber == first + |cut|
      modifies this`pending, this`frameNumber
      ensures |pending| == |old(pending)| - blockSamples
      ensures if encoded.Some? then
                && frameNumber == first + |next|
                && SoFar(whole, next, pending, blockSamples, first, out + encoded.value, encodeBlock)
              else Drained(BlockFailed, whole, next, pending, blockSamples, first, frameNumber, encodeBlock)
    {
      NextBlock(whole, cut, pending, blockSamples, first, frameNumber, out, encodeBlock);
      var block := pending[..blockSamples];
      next := cut + [block];
      encoded := encodeBlock(block, frameNumber);
      pending := pending[blockSamples..];
      if encoded.Some? {
        frameNumber := frameNumber + 1;
      }
    }

    /** What Valid() comes to: nothing lost or reordered on the way into blocks, blocks
        of 1152 frames, and whole frames pending; and as long as no block has failed,
        less than a block pending, and all blocks numbered and encoded. */
    lemma EncoderPromises()
      requires Valid()
      ensures Unbroken() ==>
                && |pending| < BLOCK_SIZE * channels && blocks == Blocks(taken, blockSamples)
                && pending == Leftover(taken, blockSamples) && frameNumber == |blocks|
                && EncodeAll(Blocks(taken, blockSamples), 0, encodeBlock) == Some(Stream())
      ensures Flatten(blocks) + pending == taken
      ensures forall b :: b in blocks ==> |b| == BLOCK_SIZE * channels
      ensures |pending| % channels == 0
    {
      CuttingLosesNothing(taken, blocks, pending, blockSamples);
      TimesIsProduct(BLOCK_SIZE, channels);
      WholeTimes(BLOCK_SIZE, channels);
      BlocksAreWhole(blocks, blockSamples, channels);
      WholeSum(|Flatten(blocks)|, |pending|, channels);
      WholeIsMod(|pending|, channels);
      if Unbroken() {
        CutUp(taken, blocks, pending, blockSamples);
      }
    }
  }

  /** All blocks but the last were encoded and numbered; the last one failed. */
  ghost predicate FailedAtLast(cut: seq<seq<int>>, first: nat, next: nat, encodeBlock: BlockEncoder) {
    && cut != [] && next == first + |cut| - 1
    && EncodeAll(cut[..|cut| - 1], first, encodeBlock).Some?
    && encodeBlock(cut[|cut| - 1], next).None?
  }

  /** The blocks cut so far have been encoded to these bytes. */
  ghost predicate SoFar(whole: seq<int>, cut: seq<seq<int>>, rest: seq<int>, n: nat, first: nat, out: seq<byte>,
                        encodeBlock: BlockEncoder)
  {
    n > 0 && Cutting(whole, cut, rest, n) && EncodeAll(cut, first, encodeBlock) == Some(out)
  }

  /** The outcome of draining: all blocks encoded and less than one left, or a block
      that failed, with the samples behind it left; it fails exactly if some block of
      the input does. */
  ghost predicate Drained(r: Encoded, whole: seq<int>, cut: seq<seq<int>>, rest: seq<int>, n: nat, first: nat, next: nat,
                          encodeBlock: BlockEncoder)
  {
    && n > 0 && Cutting(whole, cut, rest, n) && (r.Encoded? ==> |rest| < n)
    && Outcome(r, Blocks(whole, n), cut, first, next, encodeBlock)
  }

  /** All blocks could be encoded, or one failed after those before it. */
  ghost predicate Outcome(r: Encoded, all: seq<seq<int>>, cut: seq<seq<int>>, first: nat, next: nat,
                          encodeBlock: BlockEncoder)
  {
    && (r.Encoded? || r.BlockFailed?) && (r.BlockFailed? <==> EncodeAll(all, first, encodeBlock).None?)
    && (r.Encoded? ==> next == first + |cut| && EncodeAll(cut, first, encodeBlock) == Some(r.data))
    && (r.BlockFailed? ==> FailedAtLast(cut, first, next, encodeBlock))
  }

  lemma LastBlock(whole: seq<int>, cut: seq<seq<int>>, rest: seq<int>, n: nat, first: nat, out: seq<byte>,
                  encodeBlock: BlockEncoder)
    requires SoFar(whole, cut, rest, n, first, out, encodeBlock) && |rest| < n
    ensures Drained(Encoded(out), whole, cut, rest, n, first, first + |cut|, encodeBlock)
  {
    CutUp(whole, cut, rest, n);
  }

  lemma NextBlock(whole: seq<int>, cut: seq<seq<int>>, rest: seq<int>, n: nat, first: nat, number: nat, out: seq<byte>,
                  encodeBlock: BlockEncoder)
    requires SoFar(whole, cut, rest, n, first, out, encodeBlock) && |rest| >= n && number == first + |cut|
    ensures var next, encoded := cut + [rest[..n]], encodeBlock(rest[..n], number);
            if encoded.Some? then SoFar(whole, next, rest[n..], n, first, out + encoded.value, encodeBlock)
            else Drained(BlockFailed, whole, next, rest[n..], n, first, number, encodeBlock)
  {
    CutNext(whole, cut, rest, n);
    EncodeAllSnoc(cut, rest[..n], first, encodeBlock);
    if encodeBlock(rest[..n], number) == None {
      BlockFails(whole, cut, rest[..n], rest[n..], n, first, encodeBlock);
    }
  }

  lemma BlockFails(whole: seq<int>, cut: seq<seq<int>>, block: seq<int>, rest: seq<int>, n: nat, first: nat,
                   encodeBlock: BlockEncoder)
    requires n > 0 && Cutting(whole, cut + [block], rest, n) && EncodeAll(cut, first, encodeBlock).Some?
    requires encodeBlock(block, first + |cut|).None?
    ensures Drained(BlockFailed, whole, cut + [block], rest, n, first, first + |cut|, encodeBlock)
  {
    EncodeAllSnoc(cut, block, first, encodeBlock);
    LaterBlocksDoNotHelp(whole, cut + [block], rest, n, first, encodeBlock);
    assert (cut + [block])[..|cut|] == cut;
  }

  lemma LaterBlocksDoNotHelp(whole: seq<int>, cut: seq<seq<int>>, rest: seq<int>, n: nat, first: nat,
                             encodeBlock: BlockEncoder)
    requires n > 0 && Cutting(whole, cut, rest, n)
    ensures EncodeAll(cut, first, encodeBlock).None? ==> EncodeAll(Blocks(whole, n), first, encodeBlock).None?
  {
    EncodeAllAppend(cut, Blocks(rest, n), first, encodeBlock);
  }

  lemma {:induction false} BlocksAreWhole(blocks: seq<seq<int>>, n: nat, channels: nat)
    requires channels > 0 && Whole(n, channels) && forall b :: b in blocks ==> |b| == n
    ensures Whole(|Flatten(blocks)|, channels)
  {
    if blocks != [] {
      BlocksAreWhole(blocks[1..], n, channels);
      assert blocks[0] in blocks;
      WholeSum(n, |Flatten(blocks[1..])|, channels);
    }
  }

  /** All blocks encoded under consecutive numbers from 0, and less than one pending. */
  ghost predicate InOrder(blocks: seq<seq<int>>, pending: seq<int>, n: nat, number: nat, encodeBlock: BlockEncoder) {
    number == |blocks| && |pending| < n && EncodeAll(blocks, 0, encodeBlock).Some?
  }

  /** What draining the rest comes to for all blocks. */
  ghost predicate WentOn(r: Encoded, all: seq<seq<int>>, blocks: seq<seq<int>>, cut: seq<seq<int>>, next: nat,
                         encodeBlock: BlockEncoder)
  {
    && (r.Encoded? <==> EncodeAll(all, 0, encodeBlock).Some?)
    && (r.Encoded? ==>
          && next == |blocks + cut| && EncodeAll(blocks, 0, encodeBlock).Some?
          && EncodeAll(blocks + cut, 0, encodeBlock) == Some(EncodeAll(blocks, 0, encodeBlock).value + r.data))
  }

  /** Draining goes on where the blocks so far ended. */
  lemma GoesOn(blocks: seq<seq<int>>, left: seq<seq<int>>, cut: seq<seq<int>>, next: nat, r: Encoded,
               encodeBlock: BlockEncoder)
    requires Outcome(r, left, cut, |blocks|, next, encodeBlock) && EncodeAll(blocks, 0, encodeBlock).Some?
    ensures WentOn(r, blocks + left, blocks, cut, next, encodeBlock)
  {
    FailsIfRestFails(blocks, left, encodeBlock);
    if r.Encoded? {
      StreamGoesOn(blocks, cut, r.data, encodeBlock);
    }
  }

  lemma FailsIfRestFails(blocks: seq<seq<int>>, left: seq<seq<int>>, encodeBlock: BlockEncoder)
    requires EncodeAll(blocks, 0, encodeBlock).Some?
    ensures EncodeAll(blocks + left, 0, encodeBlock).Some? <==> EncodeAll(left, |blocks|, encodeBlock).Some?
  {
    EncodeAllAppend(blocks, left, 0, encodeBlock);
  }

  lemma StreamGoesOn(blocks: seq<seq<int>>, cut: seq<seq<int>>, data: seq<byte>, encodeBlock: BlockEncoder)
    requires EncodeAll(blocks, 0, encodeBlock).Some? && EncodeAll(cut, |blocks|, encodeBlock) == Some(data)
    ensures EncodeAll(blocks + cut, 0, encodeBlock) == Some(EncodeAll(blocks, 0, encodeBlock).value + data)
  {
    EncodeAllAppend(blocks, cut, 0, encodeBlock);
  }

  /** The samples of a chunk's whole frames. */
  function ChunkSamples(pcm: seq<byte>, frame: nat, size: nat): seq<int>
    requires frame > 0 && (size == 2 || size == 4)
  {
    Samples(Aligned(pcm, frame), size)
  }

  /** The samples of each chunk of a list. */
  function Pieces(chunks: seq<seq<byte>>, frame: nat, size: nat): (r: seq<seq<int>>)
    requires frame > 0 && (size == 2 || size == 4)
    ensures |r| == |chunks| && forall i :: 0 <= i < |chunks| ==> r[i] == ChunkSamples(chunks[i], frame, size)
  {
    seq(|chunks|, i requires 0 <= i < |chunks| => ChunkSamples(chunks[i], frame, size))
  }

  /** The samples of a list of chunks. */
  function AllSamples(chunks: seq<seq<byte>>, frame: nat, size: nat): seq<int>
    requires frame > 0 && (size == 2 || size == 4)
  {
    Flatten(Pieces(chunks, frame, size))
  }

  lemma AllSamplesSnoc(chunks: seq<seq<byte>>, c: seq<byte>, frame: nat, size: nat)
    requires frame > 0 && (size == 2 || size == 4)
    ensures AllSamples(chunks + [c], frame, size) == AllSamples(chunks, frame, size) + ChunkSamples(c, frame, size)
  {
    assert Pieces(chunks + [c], frame, size) == Pieces(chunks, frame, size) + [ChunkSamples(c, frame, size)];
    FlattenSnoc(Pieces(chunks, frame, size), ChunkSamples(c, frame, size));
  }

  lemma NextChunk(start: seq<int>, chunks: seq<seq<byte>>, i: nat, frame: nat, size: nat)
    requires frame > 0 && (size == 2 || size == 4) && i < |chunks|
    ensures start + AllSamples(chunks[..i + 1], frame, size)
         == start + AllSamples(chunks[..i], frame, size) + ChunkSamples(chunks[i], frame, size)
  {
    assert chunks[..i + 1] == chunks[..i] + [chunks[i]];
    AllSamplesSnoc(chunks[..i], chunks[i], frame, size);
  }

  lemma AllSamplesGrow(chunks: seq<seq<byte>>, k: nat, frame: nat, size: nat)
    returns (more: seq<int>)
    requires frame > 0 && (size == 2 || size == 4) && k <= |chunks|
    ensures AllSamples(chunks, frame, size) == AllSamples(chunks[..k], frame, size) + more
  {
    var pieces := Pieces(chunks, frame, size);
    assert pieces == pieces[..k] + pieces[k..] && pieces[..k] == Pieces(chunks[..k], frame, size);
    FlattenAppend(pieces[..k], pieces[k..]);
    more := Flatten(pieces[k..]);
  }

  lemma LaterSamplesDoNotHelp(some: seq<int>, more: seq<int>, n: nat, encodeBlock: BlockEncoder)
    requires n > 0 && EncodeAll(Blocks(some, n), 0, encodeBlock).None?
    ensures EncodeAll(Blocks(some + more, n), 0, encodeBlock).None?
  {
    BlocksAppend(some, more, n);
    EncodeAllAppend(Blocks(some, n), Blocks(Leftover(some, n) + more, n), 0, encodeBlock);
  }

  lemma LaterChunksDoNotHelp(start: seq<int>, chunks: seq<seq<byte>>, k: nat, frame: nat, size: nat, n: nat,
                             encodeBlock: BlockEncoder)
    requires frame > 0 && (size == 2 || size == 4) && k <= |chunks| && n > 0
    requires EncodeAll(Blocks(start + AllSamples(chunks[..k], frame, size), n), 0, encodeBlock).None?
    ensures EncodeAll(Blocks(start + AllSamples(chunks, frame, size), n), 0, encodeBlock).None?
  {
    var more := AllSamplesGrow(chunks, k, frame, size);
    var some := AllSamples(chunks[..k], frame, size);
    Associate(start, some, more);
    LaterSamplesDoNotHelp(start + some, more, n, encodeBlock);
  }

  /** The part of a stream from a position on, as the outcome of encoding it. */
  function FromStream(stream: Option<seq<byte>>, from: nat): Encoded {
    match stream
    case None => BlockFailed
    case Some(bytes) => Encoded(if from <= |bytes| then bytes[from..] else [])
  }

  /** Chunks of whole frames have the samples of their bytes put together, however
      these are split. */
  lemma {:induction false} SplitDoesNotMatter(chunks: seq<seq<byte>>, frame: nat, size: nat)
    requires frame > 0 && (size == 2 || size == 4) && Whole(frame, size)
    requires forall c :: c in chunks ==> Whole(|c|, frame)
    ensures SameAsJoined(chunks, frame, size)
  {
    if chunks == [] {
      assert Flatten(chunks) == [] && Samples(Flatten(chunks), size) == [];
    } else {
      var earlier, c := chunks[..|chunks| - 1], chunks[|chunks| - 1];
      assert chunks == earlier + [c];
      SplitDoesNotMatter(earlier, frame, size);
      SplitSnoc(earlier, c, frame, size);
    }
  }

  ghost predicate SameAsJoined(chunks: seq<seq<byte>>, frame: nat, size: nat)
    requires frame > 0 && (size == 2 || size == 4)
  {
    AllSamples(chunks, frame, size) == Samples(Flatten(chunks), size) && Whole(|Flatten(chunks)|, size)
  }

  lemma SplitSnoc(chunks: seq<seq<byte>>, c: seq<byte>, frame: nat, size: nat)
    requires frame > 0 && (size == 2 || size == 4) && Whole(frame, size) && Whole(|c|, frame)
    requires SameAsJoined(chunks, frame, size)
    ensures SameAsJoined(chunks + [c], frame, size)
  {
    FlattenSnoc(chunks, c);
    AllSamplesSnoc(chunks, c, frame, size);
    SamplesGrow(Flatten(chunks), c, frame, size);
  }

  lemma SamplesGrow(all: seq<byte>, c: seq<byte>, frame: nat, size: nat)
    requires frame > 0 && (size == 2 || size == 4) && Whole(frame, size) && Whole(|c|, frame) && Whole(|all|, size)
    ensures Samples(all + c, size) == Samples(all, size) + ChunkSamples(c, frame, size)
    ensures Whole(|all + c|, size)
  {
    WholeInside(|c|, frame, size);
    WholeSum(|all|, |c|, size);
    WholeIsAligned(c, frame);
    SamplesAppend(all, c, size);
  }

  lemma WholeIsAligned(c: seq<byte>, frame: nat)
    requires frame > 0 && Whole(|c|, frame)
    ensures Aligned(c, frame) == c
  {
    WholeIsMod(|c|, frame);
    QuotRem(|c|, frame);
  }

  lemma SamplesAppend(a: seq<byte>, b: seq<byte>, size: nat)
    requires (size == 2 || size == 4) && Whole(|a|, size)
    ensures Samples(a + b, size) == Samples(a, size) + Samples(b, size)
  {
    LeftoverOfWhole(a, size);
    BlocksAppend(a, b, size);
    assert [] + b == b;
    ValuesAppend(Blocks(a, size), Blocks(b, size));
  }

  lemma ValuesAppend(a: seq<seq<byte>>, b: seq<seq<byte>>)
    ensures Values(a + b) == Values(a) + Values(b)
  {
  }

  /** Whole frames are whole samples. */
  lemma {:induction false} WholeInside(len: nat, frame: nat, size: nat)
    requires frame > 0 && size > 0 && Whole(frame, size) && Whole(len, frame)
    ensures Whole(len, size)
  {
    if len > 0 {
      WholeInside(len - frame, frame, size);
      WholeSum(frame, len - frame, size);
    }
  }

  lemma {:induction false} LeftoverOfWhole<T>(s: seq<T>, n: nat)
    requires n > 0 && Whole(|s|, n)
    ensures Leftover(s, n) == []
    decreases |s|
  {
    if |s| >= n {
      LeftoverOfWhole(s[n..], n);
    }
  }

  /** An encoder is made exactly for the formats that both the encoder and the FLAC
      library accept. */
  method CreateEncoder(format: SampleFormat, libraryAccepts: bool, encodeBlock: BlockEncoder)
    returns (e: FlacEncoder?)
    ensures e != null <==>
              && format.bits <= 24 && format.rate <= 96_000 && 1 <= format.channels <= 8 && libraryAccepts
    ensures e != null ==> fresh(e) && e.Valid() && e.Unbroken() && e.taken == [] && e.channels == format.channels
  {
    if format.bits > 24 || format.rate > 96_000 || format.channels < 1 || format.channels > 8 {
      return null;
    }
    if !libraryAccepts {
      return null;
    }
    e := new FlacEncoder(format, encodeBlock);
  }

  lemma BlockIsPositive(channels: nat)
    requires channels >= 1
    ensures Times(BLOCK_SIZE, channels) > 0
  {
    TimesIsProduct(BLOCK_SIZE, channels);
  }

  lemma TakenIsWhole(taken: seq<int>, samples: seq<int>, pcm: seq<byte>, channels: nat, size: nat)
    requires channels > 0 && Whole(|taken|, channels) && FromChunk(samples, pcm, channels, size)
    ensures Whole(|taken + samples|, channels)
  {
    SamplesOfWholeFrames(pcm, channels, size);
    WholeTimes(Quot(|pcm|, Times(channels, size)), channels);
    WholeSum(|taken|, |samples|, channels);
  }

  lemma ValuesSnoc(parts: seq<seq<byte>>, b: seq<byte>)
    ensures Values(parts + [b]) == Values(parts) + [SampleValue(b)]
  {
  }
}
