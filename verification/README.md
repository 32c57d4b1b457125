# Verification of snapcast-rs

This project models the parts of the Snapcast client and server whose correctness is
not visible from one function, and proves what they promise: synchronised playout,
clock synchronisation, group membership and routing, and the wire and chunk formats.
`dafny verify dfyconfig.toml` checks all of it.

## The four components

**Playout** (`Bytes`, `SampleFormats`, `MedianWindow`, `SliceEdit`, `SyncControl`,
`Steering`, `Playout`, `Alignment`, `Lifetime`, `Timing`, `ReadLimits`). The class
`Stream` is the client's buffer of decoded chunks. `SyncControl` is its mode machine
as a value: correction interval, frames counted, medians, windows, hard-sync flag. A
stream carries a ghost record of the calls it has served, and `Valid()` says that
the record is a legal run of that machine ending in the stream's own fields, so what
is proved about runs holds of every stream object (`Alignment.StreamPromises`). What
a call does to audio is stated separately from what it does to the control state:
bytes pending before are bytes taken plus bytes pending after, and the output is the
taken bytes, edited as `SliceEdit` describes, or silence followed by them.
`Lifetime` keeps a log of a stream's requests, adds the bytes up over it, and shows
that the records streams can have are exactly the reachable runs; `ReadLimits` says
on which inputs the read and slice loops do not do their work. `Steering` and
`Timing` say in plain numbers what the mode machine decides on and when audio is
heard.

**Clock synchronisation** (`Timestamps`, `ClockSync`). Exchanges of stamped messages
between two clocks, carried by the message handlers of both sides, and the median
filter over the last 200 samples.

**Groups and routing** (`Groups`, `Routing`, `Dispatch`, `Sessions`, `Listening`,
`Commands`, `Replies`). `ServerState` and `Dispatcher` change clients, groups and
cached routing values in place; `Routing` is the same as steps on values, about
which the invariants are proved. `Sessions` is one session's loop as a method over
an arbitrary sequence of inputs: published routing values, broadcast chunks,
settings, time requests, failures. `Listening` runs the server and one session side
by side. `Commands` says field by field what every command and every event makes of
the state, and what is heard of it; `Replies` does so for the frames a session
writes.

**Formats** (`Wire`, `Utf8`, `Framing`, `Rechunk`, `AudioSenders`, `Flac`, `Wav`,
`Layout`). Readers and writers over byte streams proved against parse and encoding
functions, which are proved inverse to each other; accumulators that cut samples
into blocks. `Layout` gives the formats byte by byte.

`Wrappers` holds the option type. `Arith` holds integer arithmetic as the compiled
program performs it. Some of its functions (`Times`, `Quot`, `Rem`, `Whole`) define
products, quotients and remainders by recursion, so that the prover does not expand
them where they do not matter; each is proved equal to the operator.

## Modelling decisions

- Floating point is replaced by exact reals. `SoftInterval` shows that over the
  reals the nominal rate cancels out of the correction interval.
- Divisions on signed integers truncate toward zero, as in the program.
- Clocks, elapsed time, the 500 ms and 60 s gaps and newly generated group ids are
  parameters. New ids are assumed distinct from each other and from those in use.
- A connect is one atomic step: its state change and the registration of its routing
  channel are not separated.
- The text of the JSON-bodied messages is opaque; strings are their UTF-8 bytes, and
  bytes read as a string are decoded the lossy way.
- Timestamps add and subtract in 32-bit arithmetic that wraps around.
- The custom-protocol feature is off, as by default, so type numbers from 9 on are
  unknown types.
- Watch channels hold the last value published and whether it has been looked at.

## Where the code does not do what one might expect

Each of these is a lemma with the exact condition or a concrete run.

- A late chunk is sought into in vain. The age is recomputed from the chunk's start,
  is still positive, and the call fails; the next call drops the chunk unless its
  target time has gone back to before that start (`SoughtChunkIsDiscarded`). Ages
  ignore the read cursor, so alignment is within one frame only for a chunk not read
  before (`HardSyncAlignment`).
- Medians survive an alignment although the windows are emptied, and can force a
  second hard sync on their own (`StaleMedianTrigger`, `MediansInForce`).
- A chunk without audio passes for one that is due and hides the late chunk behind
  it, whose late audio ends the hard sync (`EmptyChunkHidesLateOne`,
  `AnyStartOnTime`).
- A chunk that ends in part of a frame makes the read loop go round for ever unless
  the request is filled before its end (`ReadEndsExactly`).
- A request for no frames with a correction due writes past its output
  (`OnlyEmptyRequestsOverrun`, `EmptyRequestsCanOverrun`).
- Averaging around the median runs past the window when mean_count is even and
  equals the number of values (`MeanInRangeExactly`). For an even mean_count one
  value more than mean_count is summed (`DoubleBuffer.Median`).
- A request of 3 to 19 frames, and no other, can hear a frame three times
  (`HeardThriceExactly`).
- Setting the clients of an unknown group takes the listed clients out of their
  groups and puts them nowhere (`UnknownTargetDropsListed`), which leaves connected
  listeners without a group (`StepKeepsSeats`).
- A client's own mute report changes the state but is not published to its session,
  which goes on sending audio until the next push to it (`SelfMuteIsNotHeard`,
  `ListenerHearsState`).
- If the routing moves to another registered stream between the handshake and the
  start of the session loop, that stream's codec header is never sent
  (`DecoderSafety`, `SwitchedBeforeLoop`).
- Text that is not valid UTF-8 is replaced while it is read, so a message can come
  out different from its bytes, and longer (`PayloadExact`, `LoneByteIsReplaced`).
- A FLAC block that fails is lost, and so is the output of the blocks before it in
  the same call, although their numbers are used up (`FlacEncoder.Encode`).
- A sender below 50 Hz or without channels has an empty chunk, and its loop does not
  end (`DrainEndsExactly`).
- The comment on `Stream` gives 50 ms as the limit for a hard sync
  (crates/snapcast-client/src/stream.rs:138); the code has four triggers, from 2 ms
  on the long-term median to 500 ms on a single age. The model follows the code.

## Model

| member | source | states |
|---|---|---|
| `MedianWindow.DoubleBuffer.constructor` | crates/snapcast-client/src/double_buffer.rs:17-22 | a new window is empty and keeps its capacity |
| `MedianWindow.DoubleBuffer.Add` | crates/snapcast-client/src/double_buffer.rs:25-30 | the newest value is appended, the oldest dropped if the window is full |
| `MedianWindow.DoubleBuffer.Median` | crates/snapcast-client/src/double_buffer.rs:33-50 | 0 for an empty window; the middle order statistic for mean_count up to 1 or above the length; otherwise the truncated mean, over mean_count, of the sorted values from mean_count / 2 below the middle to mean_count / 2 above it |
| `MedianWindow.DoubleBuffer.MedianSimple` | crates/snapcast-client/src/double_buffer.rs:53-55 | the order statistic of rank floor(length / 2), 0 when empty |
| `MedianWindow.DoubleBuffer.Clear` | crates/snapcast-client/src/double_buffer.rs:58-60 | the window is empty afterwards |
| `MedianWindow.WindowIsLastN` | crates/snapcast-client/src/double_buffer.rs:25-30 | after any sequence of adds the window holds exactly the newest min(n, capacity) values; capacity 0 behaves like 1 |
| `MedianWindow.SmallerWindowIsSuffix` | crates/snapcast-client/src/stream.rs:261-265 | of two windows over one history the smaller is a suffix of the larger |
| `MedianWindow.SortedRank` | crates/snapcast-client/src/double_buffer.rs:37-41 | entry k of the sorted copy is the order statistic of rank k, defined by counting |
| `MedianWindow.RankIsUnique` | crates/snapcast-client/src/double_buffer.rs:37-41 | no two values have the same rank |
| `MedianWindow.MedianRank` | crates/snapcast-client/src/double_buffer.rs:37-41 | a value is the median if and only if it has rank floor(length / 2) |
| `MedianWindow.MedianIgnoresOrder` | crates/snapcast-client/src/double_buffer.rs:33-42 | the median is the same for every permutation of the window |
| `MedianWindow.MedianInMajority` | crates/snapcast-client/src/double_buffer.rs:33-42 | any interval holding a strict majority of the window holds the median |
| `MedianWindow.MeanInRangeExactly` | crates/snapcast-client/src/double_buffer.rs:43-47 | the averaged slice stays in range if and only if mean_count is not an even number equal to the length |
| `MedianWindow.MiddleAverage` | crates/snapcast-client/src/double_buffer.rs:43-48 | the truncated mean over ranks low..high lies between the order statistics of those ranks |
| `Timestamps.Timeval.Add` | crates/snapcast-proto/src/types.rs:48-60 | the sum of both fields in 32-bit arithmetic, with an overfull microsecond field carried |
| `Timestamps.Timeval.Sub` | crates/snapcast-proto/src/types.rs:62-74 | the difference of both fields in 32-bit arithmetic; the loop borrows as many seconds as make the microseconds not negative |
| `Timestamps.PlusIsExact` | crates/snapcast-proto/src/types.rs:48-60 | a sum is exact if and only if neither field overflows 32 bits; its microseconds are below one million |
| `Timestamps.MinusIsExact` | crates/snapcast-proto/src/types.rs:62-74 | a difference is exact if and only if neither field overflows 32 bits; its microseconds are never negative |
| `Timestamps.ReadingsSubtract` | crates/snapcast-proto/src/types.rs:62-74 | the difference of two clock readings whose seconds fit 32 bits is exact |
| `Timestamps.SecondsWrap` | crates/snapcast-proto/src/types.rs:48-74 | overflowing seconds wrap around by 4,294,967,296, and the microseconds are those of the exact result |
| `Timestamps.TimevalInNumbers` | crates/snapcast-proto/src/types.rs:20-30 | a timestamp is sec times 1,000,000 plus usec, split toward zero |
| `Timestamps.FrameTimeInNumbers` | crates/snapcast-server/src/time.rs:31-35 | frame 0 is stamped with the start, and frame n as much later as n frames last, rounded down to the microsecond |
| `Timestamps.UsecRoundTrip` | crates/snapcast-proto/src/types.rs:20-30 | converting to a timestamp and back is the identity if and only if the whole seconds fit 32 bits |
| `Timestamps.ToUsecInjective` | crates/snapcast-proto/src/types.rs:28-30 | normalised timestamps with the same microsecond count are equal |
| `Timestamps.ChunkTimestamper.constructor` | crates/snapcast-server/src/time.rs:22-28 | a new clock starts now with no frames counted |
| `Timestamps.ChunkTimestamper.Next` | crates/snapcast-server/src/time.rs:31-35 | the stamp is the time of the first frame of the chunk; the count advances by its frames |
| `Timestamps.ChunkTimestamper.Reset` | crates/snapcast-server/src/time.rs:38-41 | the clock starts over now |
| `Timestamps.StampAll` | crates/snapcast-server/src/time.rs:31-35 | stamping a run of chunks gives each the time of its first frame, whatever their sizes |
| `Timestamps.FrameTimeEndToEnd` | crates/snapcast-client/src/stream.rs:476-482 | stamp plus cursor is the server time of that absolute frame, or exactly 1 microsecond less, for any chunking |
| `ClockSync.BalancedSample` | crates/snapcast-client/src/time_provider.rs:41-46 | an exchange whose two delays differ by at most 2 eps yields a sample within eps + 1 microsecond of the true offset |
| `ClockSync.OffsetErrorBound` | crates/snapcast-client/src/time_provider.rs:41-66 | with a strict majority of balanced exchanges in the window the published offset is within eps + 1 microsecond, whatever the others are |
| `ClockSync.HalfIsNotEnough` | crates/snapcast-client/src/time_provider.rs:63-65 | with only half of the exchanges balanced the published offset can be wrong by any amount the message fields can carry; the run consists of messages that can be received |
| `ClockSync.WindowInNumbers` | crates/snapcast-client/src/time_provider.rs:49-66 | the newest 200 exchanges since the last gap of more than 60,000,000 microseconds decide; an exchange after such a gap decides alone |
| `ClockSync.TimeProvider.constructor` | crates/snapcast-client/src/time_provider.rs:29-35 | a new filter has no samples and publishes 0 |
| `ClockSync.TimeProvider.SetDiffMs` | crates/snapcast-client/src/time_provider.rs:49-66 | the sample is booked, after dropping all earlier ones if more than 60 s have passed; the median of the last 200 is published |
| `ClockSync.TimeProvider.SetDiff` | crates/snapcast-client/src/time_provider.rs:41-46 | the sample is half the difference of the two latencies |
| `ClockSync.AnswerTime` | crates/snapcast-server/src/session.rs:523-531 | the server answers with receive time minus send time, in the arithmetic of the `-` operator |
| `ClockSync.HandleTime` | crates/snapcast-client/src/controller.rs:298-304 | the client pairs that answer with its own receive time minus the send time of the answer |
| `ClockSync.RunExchange` | crates/snapcast-server/src/session.rs:520-531 | one whole exchange books exactly the sample of its four clock readings |
| `ClockSync.Synchronise` | crates/snapcast-client/src/time_provider.rs:41-66 | any run of exchanges, carried by the messages of both sides, publishes the median of the window since the last long gap |
| `SliceEdit.SliceInBounds` | crates/snapcast-client/src/stream.rs:519-549 | no slice copy leaves the read buffer or the output |
| `SliceEdit.DropKeepsOrder` | crates/snapcast-client/src/stream.rs:527-549 | with frames dropped, later output frames come from later source frames |
| `SliceEdit.DropEdit` | crates/snapcast-client/src/stream.rs:524-549 | a source frame is missing if and only if it is the last frame of one of the first c slices |
| `SliceEdit.RepeatEdit` | crates/snapcast-client/src/stream.rs:524-549 | with frames repeated, output frames advance one source frame at a time from first to last, except at the start of each later slice |
| `SliceEdit.RepeatedOnceEach` | crates/snapcast-client/src/stream.rs:519-549 | some frame is heard three times if and only if slices are one frame long and two or more are repeated |
| `SliceEdit.SourceExactly` | crates/snapcast-client/src/stream.rs:519-549 | the source frame of every output frame, in numbers: slices as long as an even split into |c| + 1 allows, each starting one frame later or earlier than the one before it ended |
| `SyncControl.SoftInterval` | crates/snapcast-client/src/stream.rs:267-275 | over the reals, the nominal rate cancels: the interval is 2,000,000 over the capped median, rounded, with the sign of the stretch |
| `SyncControl.CallBudget` | crates/snapcast-client/src/stream.rs:355-362 | one call applies at most one correction per 2000 frames counted, and carries less than one interval over |
| `SyncControl.CorrectionFits` | crates/snapcast-client/src/stream.rs:355-362 | no counter leaves 32 bits while a correction is worked out and applied |
| `SyncControl.HeardThriceExactly` | crates/snapcast-client/src/stream.rs:352-368 | some reachable run is followed by a request of that many frames that hears a frame three times if and only if it is for 3 to 19 frames |
| `SyncControl.LongRequestsRepeatOnce` | crates/snapcast-client/src/stream.rs:352-368 | in every reachable state a request of 20 frames or more hears no frame three times |
| `SyncControl.ShortRequestRepeatsTwice` | crates/snapcast-client/src/stream.rs:352-368 | the run that gets there: the interval shrinks from its longest to its shortest, and then a request of 3 to 19 frames comes |
| `SyncControl.ReachableIsBounded` | crates/snapcast-client/src/stream.rs:352-428 | in every reachable state the interval is 0 or between 2000 and 19802 and fewer than 19802 frames are carried |
| `SyncControl.SoftSyncBudget` | crates/snapcast-client/src/stream.rs:352-428 | over every stretch of every run 2000 times the corrected frames are at most the frames requested plus those carried in |
| `SyncControl.SoftSyncBudgetFromStart` | crates/snapcast-client/src/stream.rs:352-428 | from a new stream: 2000 times the corrected frames plus the frames carried are at most the frames requested |
| `SyncControl.SourceOutputBalance` | crates/snapcast-client/src/stream.rs:352-368 | in every run the frames taken from the queue are at most those requested plus the signed corrections, with equality if and only if every call found that many pending; then source and output differ by at most one frame in 2000 |
| `SyncControl.WindowCoherence` | crates/snapcast-client/src/stream.rs:255-265 | the three windows are the newest 20, 100 and 500 ages of one history since the last alignment |
| `SyncControl.MedianTriggerNeedsHistory` | crates/snapcast-client/src/stream.rs:376-428 | a hard sync asked for by a median needs 20, 100 or 500 completed calls since the last alignment, a rate change 100 |
| `SyncControl.MediansInForce` | crates/snapcast-client/src/stream.rs:430-435 | the medians in force are those of the ages known at the last recomputation, or those from before the alignment if there was none |
| `SyncControl.StaleMedianTrigger` | crates/snapcast-client/src/stream.rs:386-394 | a concrete reachable run in which a median from before an alignment forces a new hard sync although every age since is mild |
| `Steering.HardSyncExactly` | crates/snapcast-client/src/stream.rs:376-407 | a normal-mode call ends in hard sync if and only if its age is beyond 500,000 microseconds, or beyond 500 with a median beyond 2000 (of 500 ages), 5000 (of 100) or 50,000 (of 20) |
| `Steering.RateFollowsDrift` | crates/snapcast-client/src/stream.rs:373-426 | it leaves a positive interval if and only if the stream runs late by all three measures, a negative one if and only if it runs early, and 0 otherwise; its size is 2,000,000 over the short-term median, capped at 1000 and rounded |
| `Steering.CorrectsTowardsZero` | crates/snapcast-client/src/stream.rs:354-426 | after it a stream takes more source frames than requested only if the call was late by more than 50 microseconds, and fewer only if it was early by more |
| `Steering.SteadyDriftIsCorrected` | crates/snapcast-client/src/stream.rs:373-435 | a steady drift of 101 to 1000 microseconds over 100 calls since the alignment leaves an interval of 2,000,000 over the drift, rounded, with the sign of the drift |
| `Steering.SteadyDriftTakesMore` | crates/snapcast-client/src/stream.rs:354-435 | so a later call for an interval or more takes more frames than requested from a stream that is late, and fewer from one that is early |
| `Steering.CorrectionExactly` | crates/snapcast-client/src/stream.rs:354-362 | the correction due times the interval, plus the frames carried over, are the frames counted |
| `Steering.WantedExactly` | crates/snapcast-client/src/stream.rs:508-512 | a call takes the frames requested plus the correction, but at least one |
| `Steering.MediansEverySecond` | crates/snapcast-client/src/stream.rs:430-435 | the medians are recomputed, from the newest 500 and 100 ages, if and only if a call comes in another second than the last recomputation |
| `Steering.DeltaCounts` | crates/snapcast-client/src/stream.rs:447-511 | frames dropped and repeated are netted up until then |
| `Steering.OtherEvents` | crates/snapcast-client/src/stream.rs:249-258 | clearing asks for a hard sync and keeps the rest; an alignment ends it and forgets the ages |
| `Playout.PcmChunk.ReadFrames` | crates/snapcast-client/src/stream.rs:70-87 | copies min(requested, available, room) whole frames and moves the cursor past them |
| `Playout.CopySlices` | crates/snapcast-client/src/stream.rs:519-549 | the slice loop writes the edit described by SliceEdit, frame by frame, and nothing else |
| `Playout.Stream.constructor` | crates/snapcast-client/src/stream.rs:202-221 | a new stream is empty, aligning, with empty windows and no correction |
| `Playout.Stream.ReadNext` | crates/snapcast-client/src/stream.rs:476-496 | whenever the read does not stall: pending bytes before = bytes written + pending bytes after, min(requested, available) frames are written in order, the rest of the output is untouched, the chunks left are the exact ones; chunks may be of any length |
| `Playout.Stream.ReadRound` | crates/snapcast-client/src/stream.rs:484-494 | one pass of the loop is one Round of the loop that ReadEndsExactly is about |
| `Playout.WholeChunksNeverStall` | crates/snapcast-client/src/stream.rs:484-494 | chunks of whole frames never stall a read |
| `Playout.Stream.ReadWithCorrection` | crates/snapcast-client/src/stream.rs:498-553 | takes frames + clamped correction from the queue and writes exactly `frames` frames, edited as SliceEdit says |
| `Playout.Stream.TakeCorrection` | crates/snapcast-client/src/stream.rs:354-362 | the correction due and the frames carried over, by truncating 32-bit division |
| `Playout.Stream.SetRealSampleRate` | crates/snapcast-client/src/stream.rs:267-275 | the correction interval for a rate, 0 for the nominal one |
| `Playout.Stream.SpeedUp` | crates/snapcast-client/src/stream.rs:411-417 | a positive interval from the short-term median |
| `Playout.Stream.SlowDown` | crates/snapcast-client/src/stream.rs:418-425 | a negative interval from the short-term median |
| `Playout.Stream.Decide` | crates/snapcast-client/src/stream.rs:373-426 | mode and interval are those of the trigger cascade |
| `Playout.Stream.Measure` | crates/snapcast-client/src/stream.rs:373-448 | the whole control state after an age is measured |
| `Playout.Stream.UpdateBuffers` | crates/snapcast-client/src/stream.rs:261-265 | each window takes the age in |
| `Playout.Stream.SkipStale` | crates/snapcast-client/src/stream.rs:306-319 | exactly the maximal prefix of wholly stale chunks is dropped; the next one is current, sought to the due frame if late; the rest stays in order |
| `Playout.Stream.SilenceThenAudio` | crates/snapcast-client/src/stream.rs:333-342 | s frames of zeros, then the pending audio in order |
| `Playout.Stream.StartChunk` | crates/snapcast-client/src/stream.rs:325-348 | silence up to the time of the chunk, then its audio; hard sync ends unless the silence fills the request |
| `Playout.Stream.Align` | crates/snapcast-client/src/stream.rs:294-350 | the whole effect of a call in hard-sync mode |
| `Playout.Stream.ReadDue` | crates/snapcast-client/src/stream.rs:354-368 | the audio of a normal-mode call, with the correction due |
| `Playout.Stream.PlayOn` | crates/snapcast-client/src/stream.rs:352-450 | the whole effect of a normal-mode call: audio, age, control state, verdict |
| `Playout.Stream.TakeNext` | crates/snapcast-client/src/stream.rs:285-288 | the next chunk is taken up when the current one is used up |
| `Playout.Stream.GetPlayerChunk` | crates/snapcast-client/src/stream.rs:278-451 | every call, in every mode, on record: chunks before and after, bytes taken, output, verdict and event; with nothing at hand it changes nothing; the record is always a legal run of the control state machine |
| `Playout.Stream.GetPlayerChunkOrSilence` | crates/snapcast-client/src/stream.rs:461-474 | the same as GetPlayerChunk for chunks, record and verdict; the output is what that call left there if it succeeds, and zeros over the request if it does not |
| `Playout.Stream.GetSilence` | crates/snapcast-client/src/stream.rs:454-458 | the request is filled with zeros as far as the output reaches |
| `Playout.Stream.AddChunk` | crates/snapcast-client/src/stream.rs:239-241 | the chunk is queued last |
| `Playout.Stream.Clear` | crates/snapcast-client/src/stream.rs:249-253 | all audio is dropped and aligning starts over; windows, medians and interval stay |
| `Timing.SizesInNumbers` | crates/snapcast-proto/src/sample_format.rs:59-66 | a frame is channels times bytes per sample; samples of 24 bits take four bytes |
| `Timing.DurationExactly` | crates/snapcast-client/src/stream.rs:61-67 | a chunk lasts as long as its whole frames, rounded down to the microsecond |
| `Timing.StaleExactly` | crates/snapcast-client/src/stream.rs:306-319 | a chunk of n frames is stale if and only if it is late and rate times (age + 1) exceeds n times 1,000,000 |
| `Timing.SkipsExactly` | crates/snapcast-client/src/stream.rs:306-319 | skipping throws away exactly the chunks that are stale in this sense, up to the first that is not, and moves the cursor of that one by the whole frames that are past |
| `Timing.AimsExactly` | crates/snapcast-client/src/stream.rs:295-349 | what a hard-sync call goes for: silence only if its chunk is due after the request, its chunk if that is not late, else the outcome of skipping, refused if still late |
| `Timing.HeardWhenDue` | crates/snapcast-client/src/stream.rs:278-350 | a call that ends hard sync succeeds: it puts silence up to the frame in whose time a chunk falls due, its stamp plus the buffer time against now plus the output delay, and then that chunk from its cursor |
| `Timing.SilenceUntilAligned` | crates/snapcast-client/src/stream.rs:294-350 | a call that stays in hard sync puts out nothing but silence and takes nothing |
| `Timing.AgeIsLateness` | crates/snapcast-client/src/stream.rs:364-450 | a normal-mode call goes on record with the frames requested and found and an age that says how much later its first frame is heard than its stamp plus the buffer time; it succeeds if that is within half a second |
| `Timing.CallTakesFrames` | crates/snapcast-client/src/stream.rs:364-368 | it takes the bytes of the frames it wants, from the front, as far as there are any |
| `Timing.PlainAudio` | crates/snapcast-client/src/stream.rs:504-506 | without a correction it puts these bytes out as they are and leaves the rest of the output alone |
| `Timing.CorrectedAudio` | crates/snapcast-client/src/stream.rs:508-551 | with a correction every byte put out is that of the same place in the source frame it comes from; where the queue was short, that of the read buffer before |
| `Timing.ReadKeepsChunks` | crates/snapcast-client/src/stream.rs:484-494 | a read takes chunks from the front of the queue and moves one cursor; stamps, data and order stay |
| `Alignment.StreamPromises` | crates/snapcast-client/src/stream.rs:158-193 | every valid stream object meets the soft-sync budget, window coherence and the balance of source and output for its own recorded run |
| `Alignment.CallTakes` | crates/snapcast-client/src/stream.rs:352-368 | the frames the record books for a call are exactly those of the bytes the call took from the chunks |
| `Alignment.ReadTimeIsServerTime` | crates/snapcast-client/src/stream.rs:476-482 | the time ReadNext reports is the server time of that frame, or 1 microsecond less |
| `Alignment.HardSyncAlignment` | crates/snapcast-client/src/stream.rs:294-350 | for every call that ends hard sync on a chunk with anything left: the silence fills the time up to that chunk to the frame, the next output frame is the chunk's frame at its cursor, it is never late, and it is less than one frame early if and only if the cursor was 0 |
| `Alignment.HardSyncStart` | crates/snapcast-client/src/stream.rs:294-350 | the same output when that chunk has nothing left: the first frame heard is that of the first chunk that has one |
| `Alignment.AnyStartOnTime` | crates/snapcast-client/src/stream.rs:294-350 | whatever chunk hard sync ends on, the first frame heard is on time if and only if its chunk, with what has been read of it, is as many frames ahead as the chunk the silence was measured by, and late if and only if it is fewer |
| `Alignment.EmptyChunkHidesLateOne` | crates/snapcast-client/src/stream.rs:294-350 | an empty chunk that is due within the request hides the late chunk behind it: the call succeeds, ends hard sync and plays the late audio right behind the silence |
| `Alignment.SilenceFits` | crates/snapcast-client/src/stream.rs:296-348 | a chunk is started on if and only if it is due within the request; the silence fills the request only if it is due exactly at its end |
| `Alignment.StartsOnTime` | crates/snapcast-client/src/stream.rs:305-349 | a start after skipping happens if and only if the first playable chunk of the queue is not late, and is on that chunk with the rest of the queue behind it |
| `Alignment.SeekStaysInside` | crates/snapcast-client/src/stream.rs:310-314 | seeking into a late chunk lands on the due whole frame, before its end |
| `Alignment.SoughtChunkIsDiscarded` | crates/snapcast-client/src/stream.rs:310-327 | the call that seeks into a late chunk fails, and the next call throws that chunk away if and only if its start is still past, which it is whenever the target time has not gone back |
| `Lifetime.Live` | crates/snapcast-client/src/stream.rs:239-474 | a whole life of added chunks, calls, buffer changes and clears: a log with one entry per request leads from the new stream to the one returned; every entry gives the chunks, record, output, verdict, bytes taken and bytes dropped of its request, and the answers returned are those of the log |
| `Lifetime.LifeConserves` | crates/snapcast-client/src/stream.rs:239-474 | over any such log everything added is what was dropped or taken by calls, in order, followed by what is pending |
| `Lifetime.HandlePlay` | crates/snapcast-client/src/stream.rs:461-474 | one call of the player: the bytes held are those dropped, those taken into its output and those kept; outside hard sync none are dropped; the answer is that output, or silence if it may not be played |
| `Lifetime.CallConserves` | crates/snapcast-client/src/stream.rs:278-451 | a call that does what it has to drops bytes from the front, in hard sync only, delivers the next ones and keeps the rest |
| `Lifetime.HistoryIsReachable` | crates/snapcast-client/src/stream.rs:278-451 | whatever is done to a stream, its record is a reachable run |
| `Lifetime.Realise` | crates/snapcast-client/src/stream.rs:239-451 | every reachable run is the record of a stream, brought there by adding chunks, calling and clearing |
| `Lifetime.SkippingKeepsTail` | crates/snapcast-client/src/stream.rs:305-319 | what skipping and seeking leave is the tail of the queue |
| `ReadLimits.ReadEndsExactly` | crates/snapcast-client/src/stream.rs:484-494 | the read loop ends if and only if it gets its frames before it meets a chunk that ends in part of a frame, which is what ReadNext asks for |
| `ReadLimits.OnlyEmptyRequestsOverrun` | crates/snapcast-client/src/stream.rs:508-549 | a corrected read writes past its request if and only if the request is for no frames |
| `ReadLimits.EmptyRequestsCanOverrun` | crates/snapcast-client/src/stream.rs:352-368 | a reachable run after which such a request does so |
| `Groups.ServerState.GetOrCreateClient` | crates/snapcast-server/src/state.rs:96-116 | an unknown client is added with default settings, a known one gets its host data refreshed |
| `Groups.ServerState.GroupForClient` | crates/snapcast-server/src/state.rs:119-140 | the first group listing the client, or a new group of its own on the default stream |
| `Groups.ServerState.Strike` | crates/snapcast-server/src/state.rs:144-146 | the client is struck off every list, all else unchanged |
| `Groups.ServerState.RemoveClientFromGroups` | crates/snapcast-server/src/state.rs:143-149 | as RemovedPromises describes |
| `Groups.ServerState.Evict` | crates/snapcast-server/src/state.rs:165-184 | unlisted members leave the target, each into a new group |
| `Groups.ServerState.MoveTo` | crates/snapcast-server/src/state.rs:187-203 | one listed client leaves all other lists and joins the target, unless it is there |
| `Groups.ServerState.SetGroupClients` | crates/snapcast-server/src/state.rs:156-207 | moving the clients one by one equals one closed-form rearrangement; the groups stay a partition |
| `Groups.ServerState.SetGroupStream` | crates/snapcast-server/src/state.rs:210-214 | only the stream of that group changes |
| `Groups.RemovedPromises` | crates/snapcast-server/src/state.rs:143-149 | the removed client is nowhere, all others are where they were, no group is empty |
| `Groups.JoinedPromises` | crates/snapcast-server/src/state.rs:119-140 | the client has a home, nobody else moves, the groups stay a partition |
| `Groups.RegroupedIsPartition` | crates/snapcast-server/src/state.rs:156-207 | unique ids, no empty group, no client listed twice, for every request |
| `Groups.ListedJoinTarget` | crates/snapcast-server/src/state.rs:186-203 | each listed client is in the target, which keeps its id, name, stream and mute flag and has exactly the listed clients, each once |
| `Groups.UnlistedAreEvicted` | crates/snapcast-server/src/state.rs:165-184 | each unlisted member is alone in a fresh unnamed unmuted group on the same stream |
| `Groups.OthersStay` | crates/snapcast-server/src/state.rs:186-203 | everybody else stays in their group, which loses the listed clients and nothing more |
| `Groups.MembershipAfterMove` | crates/snapcast-server/src/state.rs:156-207 | a client has a group afterwards if and only if it had one or is listed |
| `Groups.UnknownTargetDropsListed` | crates/snapcast-server/src/state.rs:186-206 | for an unknown group id the listed clients end up in no group |
| `Groups.EmptyListDissolvesTarget` | crates/snapcast-server/src/state.rs:205-206 | the target survives if and only if somebody is listed |
| `Groups.HalfwayStep` | crates/snapcast-server/src/state.rs:187-203 | one round of the moving loop is one step of the closed form |
| `Commands.EvictedStayOnStream` | crates/snapcast-server/src/state.rs:165-184 | an evicted member is alone in a group with a new id, no name, unmuted, on the stream it was listening to |
| `Commands.ClientsKeepOrder` | crates/snapcast-server/src/state.rs:144-172 | members that stay keep their order |
| `Commands.GroupsKeepOrder` | crates/snapcast-server/src/state.rs:205-206 | groups that stay keep their order |
| `Commands.NewcomersComeLast` | crates/snapcast-server/src/state.rs:165-203 | new members come in the order of the request, each once; groups keep name, stream and mute flag, and new ones come last |
| `Routing.PushedAllAgrees` | crates/snapcast-server/src/session.rs:127-139 | after a push to all, every session agrees with the state in stream and both mute flags, whatever was cached |
| `Routing.PushedOneAgrees` | crates/snapcast-server/src/session.rs:100-108 | a push to one client repairs that client and disturbs no other |
| `Routing.EditedGroupAgrees` | crates/snapcast-server/src/session.rs:111-124 | editing a group and pushing to its members keeps every session in step |
| `Routing.GroupCommandKeeps` | crates/snapcast-server/src/command.rs:104-144 | group stream, mute and name commands keep the cache in step |
| `Routing.StructuralCommandHeals` | crates/snapcast-server/src/command.rs:145-202 | regrouping, deleting a client and removing a stream leave every session in step, even with mute flags that had fallen behind |
| `Routing.VolumeCommandKeeps` | crates/snapcast-server/src/command.rs:35-68 | a volume command keeps the cache in step |
| `Routing.QuietCommandKeeps` | crates/snapcast-server/src/command.rs:69-103 | latency, name and metadata commands change nothing a session caches |
| `Routing.ConnectKeeps` | crates/snapcast-server/src/session.rs:337-362 | connecting registers the session with what the state holds and gives the client a group |
| `Routing.DisconnectKeeps` | crates/snapcast-server/src/session.rs:414-424 | disconnecting keeps all other sessions in step |
| `Routing.ClientInfoKeeps` | crates/snapcast-server/src/session.rs:533-546 | a report by a client leaves the mute flags in step if and only if it does not contradict the cached flag |
| `Routing.StepKeepsConsistency` | crates/snapcast-server/src/command.rs:33-225 | every event keeps the partition and the stream and group-mute agreement; mute agreement is kept if and only if the event is no contradicting report |
| `Routing.RunKeepsConsistency` | crates/snapcast-server/src/command.rs:33-225 | the same over every run |
| `Routing.ReachableIsConsistent` | crates/snapcast-server/src/command.rs:33-225 | the same for every state reachable from an empty server |
| `Routing.StepKeepsSeats` | crates/snapcast-server/src/state.rs:143-207 | a registered listener loses its group if and only if it is deleted or listed for an unknown group |
| `Routing.RunKeepsSeats` | crates/snapcast-server/src/command.rs:145-164 | without those two events every registered listener has a group at the end of the run |
| `Routing.AudibleIffState` | crates/snapcast-server/src/session.rs:571-583 | where the cached routing agrees with the state, it lets a chunk through if and only if the state says the client should hear it |
| `Listening.OnlyPushesPublish` | crates/snapcast-server/src/session.rs:100-139 | an event that sends nothing to a client leaves its cached value alone |
| `Listening.ActKeepsTracking` | crates/snapcast-server/src/session.rs:383-519 | server events, the start of the loop and its inputs keep the channel equal to the cache, and a session with nothing pending on its channel |
| `Listening.RunKeepsTracking` | crates/snapcast-server/src/session.rs:383-519 | so does every interleaving of them, and the server stays consistent |
| `Listening.EventAgrees` | crates/snapcast-server/src/session.rs:100-139 | an event leaves the cached mute flag of a client with a group in step if and only if it pushes to the client, or is its report and repeats the cached flag, or is neither and the flag was in step |
| `Listening.RunAgrees` | crates/snapcast-server/src/session.rs:533-546 | so after any run the flag is in step if and only if the last report of the client since the last push to it repeated the flag cached then |
| `Listening.ListenerHearsState` | crates/snapcast-server/src/session.rs:571-583 | from the connect on, over any interleaving of server events with the inputs of the session: a session with nothing pending writes a chunk exactly as the state says, if and only if something else than its own mute flag decides or its last report since the last push to it agreed |
| `Routing.SelfMuteIsNotHeard` | crates/snapcast-server/src/session.rs:533-546 | a client that mutes itself is still sent audio |
| `Commands.VolumeCommandDoes` | crates/snapcast-server/src/command.rs:35-68 | percent and mute flag of that client; its session is told, nothing else changes |
| `Commands.LatencyCommandDoes` | crates/snapcast-server/src/command.rs:69-91 | the latency of that client, and nothing else |
| `Commands.NameCommandDoes` | crates/snapcast-server/src/command.rs:92-103 | the name of that client, and nothing else |
| `Commands.GroupStreamCommandDoes` | crates/snapcast-server/src/command.rs:104-118 | the stream of the group with that id; its members are told |
| `Commands.GroupMuteCommandDoes` | crates/snapcast-server/src/command.rs:119-132 | the mute flag of the group with that id; its members are told |
| `Commands.GroupNameCommandDoes` | crates/snapcast-server/src/command.rs:133-144 | the name of the group with that id, and nothing else |
| `Commands.GroupClientsCommandDoes` | crates/snapcast-server/src/command.rs:145-154 | groups only; everybody with a group is told |
| `Commands.DeleteCommandDoes` | crates/snapcast-server/src/command.rs:155-164 | the client has no record and no group any more, the others keep theirs; everybody is told |
| `Commands.StreamMetaCommandDoes` | crates/snapcast-server/src/command.rs:165-178 | the properties of the first stream with that id, and nothing else |
| `Commands.RemoveStreamCommandDoes` | crates/snapcast-server/src/command.rs:188-202 | the stream is gone and no group is left on it; everybody is told |
| `Commands.ReportDoes` | crates/snapcast-server/src/session.rs:533-540 | percent and mute flag of the client that reports; nobody is told |
| `Commands.ConnectDoes` | crates/snapcast-server/src/session.rs:333-362 | a new client gets default settings, a known one keeps its own; its host data are those reported, it is connected, and its session is told |
| `Commands.ConnectSeats` | crates/snapcast-server/src/state.rs:119-140 | a client without a group gets one of its own, unnamed and unmuted, on the default stream; nobody else moves |
| `Commands.DisconnectDoes` | crates/snapcast-server/src/session.rs:414-424 | the client is no longer connected and its session is gone; everything else stays |
| `Commands.MuteSilences` | crates/snapcast-server/src/command.rs:35-68 | once its session has looked, a muted client is sent no chunk unless muted clients are sent audio, and an unmuted one those of its group again |
| `Commands.GroupMuteSilences` | crates/snapcast-server/src/command.rs:119-132 | the same for its group |
| `Commands.StreamCommandIsHeard` | crates/snapcast-server/src/command.rs:104-118 | a client whose group is put on another stream is sent that stream and no other |
| `Commands.NewcomerHearsDefault` | crates/snapcast-server/src/session.rs:333-467 | a client new to the server is sent the default stream, and nothing else, as soon as its loop has begun |
| `Dispatch.SessionContext.PushRouting` | crates/snapcast-server/src/session.rs:100-108 | the value of one session is refreshed |
| `Dispatch.SessionContext.PushRoutingForGroup` | crates/snapcast-server/src/session.rs:111-124 | the values of all members of a group are refreshed |
| `Dispatch.SessionContext.PushRoutingAll` | crates/snapcast-server/src/session.rs:127-139 | the values of all grouped clients are refreshed |
| `Dispatch.SessionContext.Register` | crates/snapcast-server/src/session.rs:333-362 | state and cache after a connect |
| `Dispatch.SessionContext.Unregister` | crates/snapcast-server/src/session.rs:414-424 | state and cache after a disconnect |
| `Dispatch.SessionContext.TakeClientInfo` | crates/snapcast-server/src/session.rs:533-540 | only the volume of that client changes |
| `Dispatch.Dispatcher.SetClientVolume` | crates/snapcast-server/src/command.rs:35-68 | volume and mute flag of a known client change and its cached routing is refreshed; nothing else changes |
| `Dispatch.Dispatcher.SetClientLatency` | crates/snapcast-server/src/command.rs:69-91 | only the latency of a known client changes; nothing is published |
| `Dispatch.Dispatcher.SetClientName` | crates/snapcast-server/src/command.rs:92-103 | only the name of a known client changes; nothing is published |
| `Dispatch.Dispatcher.SetGroupStream` | crates/snapcast-server/src/command.rs:104-118 | the stream of the group changes and the routing of its members is refreshed |
| `Dispatch.Dispatcher.SetGroupMute` | crates/snapcast-server/src/command.rs:119-132 | the mute flag of the group changes and the routing of its members is refreshed |
| `Dispatch.Dispatcher.SetGroupName` | crates/snapcast-server/src/command.rs:133-144 | only the name of the group changes; nothing is published |
| `Dispatch.Dispatcher.SetGroupClients` | crates/snapcast-server/src/command.rs:145-154 | the groups are rearranged and the routing of every grouped client is refreshed |
| `Dispatch.Dispatcher.DeleteClient` | crates/snapcast-server/src/command.rs:155-164 | the client leaves groups and records, its session stays registered, everybody else is refreshed |
| `Dispatch.Dispatcher.SetStreamMeta` | crates/snapcast-server/src/command.rs:165-178 | only the properties of the first stream with that id change |
| `Dispatch.Dispatcher.RemoveStream` | crates/snapcast-server/src/command.rs:188-202 | the stream is gone, groups that played it have none, everybody is refreshed |
| `Dispatch.Dispatcher.Handle` | crates/snapcast-server/src/command.rs:32-202 | any command has the effect of its step and keeps partition, stream and mute agreement |
| `Sessions.SessionLoop` | crates/snapcast-server/src/session.rs:451-565 | for any interleaving of published values, chunks, settings, time requests and failures: the loop handles the inputs up to the first failed source or failed write, and what it writes and where its local routing ends up are those of the inputs handled |
| `Sessions.InputKeepsInStep` | crates/snapcast-server/src/session.rs:485-519 | one input keeps the decoder on the stream the session follows |
| `Sessions.LoopKeepsInStep` | crates/snapcast-server/src/session.rs:485-519 | so does any sequence of inputs, across any stream switches |
| `Sessions.DecoderSafety` | crates/snapcast-server/src/session.rs:383-467 | in every run each chunk follows a header of its own stream if and only if the routing was not moved to another registered stream between handshake and loop start |
| `Sessions.SwitchedBeforeLoop` | crates/snapcast-server/src/session.rs:467-519 | the run that fails otherwise |
| `Sessions.SeenIsFollowed` | crates/snapcast-server/src/session.rs:502-519 | a session with nothing unseen follows the published routing |
| `Replies.TimeIsAnswered` | crates/snapcast-server/src/session.rs:523-531 | a time request is answered with one frame that has its id and the time received minus the time sent, exact unless a field overflows |
| `Replies.EveryRequestIsAnswered` | crates/snapcast-server/src/session.rs:451-565 | over any inputs the replies are those to the requests, one each, in order |
| `Replies.ExchangeThroughLoop` | crates/snapcast-client/src/controller.rs:298-304 | a request through the loop and its reply through the client book the sample of the four clock readings |
| `Replies.SettingsArePassedOn` | crates/snapcast-server/src/session.rs:559-562 | a settings update goes out as it came |
| `Replies.ChunksArePassedOn` | crates/snapcast-server/src/session.rs:485-501 | a chunk goes out as it came if it is of the followed stream and not muted, and otherwise not at all |
| `Replies.RoutingIsTakenOver` | crates/snapcast-server/src/session.rs:502-519 | new routing is taken over once, after the header of its stream if that is another one with a producer |
| `Replies.TheRestIsSilent` | crates/snapcast-server/src/session.rs:484-565 | other inputs write nothing |
| `Replies.LoopEndsExactly` | crates/snapcast-server/src/session.rs:484-565 | the loop ends if and only if a source has failed or a frame is due and cannot be written |
| `Replies.SessionStarts` | crates/snapcast-server/src/session.rs:371-467 | settings first, then the header of the stream registered with; the loop starts from the routing last published |
| `Wire.TvRoundTrip` | crates/snapcast-proto/src/types.rs:33-45 | a timestamp is read back from its 8 bytes |
| `Wire.TvExact` | crates/snapcast-proto/src/types.rs:33-45 | a timestamp is read from its own bytes and from no others |
| `Wire.FieldRoundTrip` | crates/snapcast-proto/src/message/wire.rs:17-56 | a length-prefixed field of at most 2 MiB is read back |
| `Wire.FieldExact` | crates/snapcast-proto/src/message/wire.rs:43-56 | a field that is read is at most 2 MiB long and its bytes are its own encoding |
| `Wire.Reader.ReadCheckedLen` | crates/snapcast-proto/src/message/wire.rs:17-26 | the length is refused before anything is read for it |
| `Wire.Reader.ReadBytes` | crates/snapcast-proto/src/message/wire.rs:29-49 | the read delivers what the parse says and leaves the rest |
| `Wire.Reader.ReadTimeval` | crates/snapcast-proto/src/types.rs:33-38 | the same for a timestamp |
| `Wire.Writer.WriteBytes` | crates/snapcast-proto/src/message/wire.rs:37-56 | the encoding is appended |
| `Wire.Writer.WriteTimeval` | crates/snapcast-proto/src/types.rs:41-45 | the encoding is appended |
| `Framing.TypeNumbering` | crates/snapcast-proto/src/message/mod.rs:43-81 | numbers and canonical types correspond one to one; an unknown type with a known number does not survive |
| `Framing.HeaderRoundTrip` | crates/snapcast-proto/src/message/base.rs:65-92 | a header is read back from its 26 bytes |
| `Framing.HeaderExact` | crates/snapcast-proto/src/message/base.rs:65-92 | a header is read from its own bytes and from no others |
| `Framing.PayloadRoundTrip` | crates/snapcast-proto/src/message/factory.rs:49-87 | every payload of at most 2 MiB with valid texts is read back from its bytes |
| `Framing.PayloadExact` | crates/snapcast-proto/src/message/factory.rs:49-69 | what a payload is read from begins with its own bytes if and only if its texts were valid UTF-8; in any case it is of the announced kind, has valid texts, and grew at most threefold |
| `Framing.RawExact` | crates/snapcast-proto/src/message/factory.rs:49-69 | before texts are decoded, what a payload is read from begins with its own bytes |
| `Utf8.LossyIsIdentity` | crates/snapcast-proto/src/message/wire.rs:29-34 | decoding leaves bytes as they are if and only if they are valid UTF-8 |
| `Utf8.LossyIsText` | crates/snapcast-proto/src/message/wire.rs:29-34 | whatever the bytes, the decoded text is valid UTF-8 |
| `Utf8.LoneByteIsReplaced` | crates/snapcast-proto/src/message/wire.rs:29-34 | a single byte that starts no character comes back as the three bytes of U+FFFD |
| `Utf8.TextIsEncoded` | crates/snapcast-proto/src/message/wire.rs:29-34 | bytes are valid UTF-8 if and only if they are the encoding of some sequence of character numbers, none of them a surrogate |
| `Utf8.ReplacedIsMaximal` | crates/snapcast-proto/src/message/wire.rs:29-34 | one replacement character stands for the longest start of a character there is, or for one byte |
| `Framing.WireChunkExact` | crates/snapcast-proto/src/message/wire_chunk.rs:27-38 | the bytes an audio chunk is read from begin with its own encoding |
| `Framing.ErrorExact` | crates/snapcast-proto/src/message/error.rs:30-47 | before its texts are decoded, the bytes an error message is read from begin with its own encoding |
| `Framing.TwoFieldsRoundTrip` | crates/snapcast-proto/src/message/codec_header.rs:27-38 | codec name and header bytes are read back in order |
| `Framing.ParseHeaderLength` | crates/snapcast-proto/src/message/base.rs:65-81 | a header is read if and only if 26 bytes are there |
| `Framing.FrameRoundTrip` | crates/snapcast-client/src/connection/mod.rs:26-59 | a frame is read back as its message, leaving what follows, if and only if its payload is at most 2 MiB |
| `Framing.OversizedIsRefused` | crates/snapcast-client/src/connection/mod.rs:39-59 | a longer payload is refused as too large |
| `Framing.NoPrefixIsAccepted` | crates/snapcast-client/src/connection/mod.rs:26-51 | no proper prefix of a frame is accepted |
| `Framing.StreamRoundTrip` | crates/snapcast-client/src/connection/mod.rs:26-71 | any list of messages written in a row is read back as that list, up to the receipt stamps |
| `Framing.StreamIsUnambiguous` | crates/snapcast-client/src/connection/mod.rs:26-71 | one byte stream cannot come from two lists of messages |
| `Framing.Serialize` | crates/snapcast-proto/src/message/factory.rs:74-94 | payload first, then the header with its size; the frame of the message |
| `Framing.Deserialize` | crates/snapcast-proto/src/message/factory.rs:49-69 | the message of the payload, texts decoded, or the error; surplus bytes are ignored |
| `Framing.ReadFrame` | crates/snapcast-client/src/connection/mod.rs:26-51 | header, receipt stamp, size check, payload: what the parse of the stream says |
| `Framing.WriteHeader` | crates/snapcast-proto/src/message/base.rs:84-92 | the 26 bytes are appended |
| `Framing.ReadHeader` | crates/snapcast-proto/src/message/base.rs:65-81 | what the parse says |
| `Layout.NumbersAreLittleEndian` | crates/snapcast-proto/src/message/base.rs:65-92 | numbers are written lowest byte first, signed ones in two's complement |
| `Layout.HeaderLayout` | crates/snapcast-proto/src/message/base.rs:65-92 | the 26 bytes of a header, field by field |
| `Layout.PayloadLayout` | crates/snapcast-proto/src/message/factory.rs:74-87 | the bytes of every kind of payload, field by field |
| `Layout.FrameLayout` | crates/snapcast-proto/src/message/factory.rs:74-94 | a frame begins with the number of its kind: 1 codec header, 2 chunk, 3 settings, 4 time, 5 hello, 7 client info, 8 error; its size is at bytes 22 to 25 |
| `Layout.LimitInNumbers` | crates/snapcast-client/src/connection/mod.rs:39-59 | a frame is read if and only if its payload is at most 2,097,152 bytes long |
| `Layout.FieldRefusals` | crates/snapcast-proto/src/message/wire.rs:17-34 | a field longer than 2,097,152 bytes is too large, one cut short is incomplete, any other is read |
| `Layout.TextsInPayloads` | crates/snapcast-proto/src/message/factory.rs:49-69 | every text of a payload that was read is valid UTF-8, and raw payloads are as they came |
| `Rechunk.BlocksLoseNothing` | crates/snapcast-server/src/lib.rs:130-145 | blocks and rest put together are the input |
| `Rechunk.BlockAt` | crates/snapcast-server/src/lib.rs:132-145 | block k is the k-th stretch of the input |
| `Rechunk.BlocksAppend` | crates/snapcast-server/src/lib.rs:130-145 | cutting in two goes gives the blocks of cutting once |
| `Rechunk.SplitIndependence` | crates/snapcast-server/src/lib.rs:119-147 | however the input is split into calls, the blocks are those of the whole |
| `Rechunk.SameSamplesSameBlocks` | crates/snapcast-server/src/lib.rs:119-147 | two splits of the same samples give the same blocks and the same rest |
| `Rechunk.CuttingLosesNothing` | crates/snapcast-server/src/lib.rs:130-145 | at every point of the cutting loop blocks and rest put together are the input, and every block is whole |
| `AudioSenders.ChunkIsPositive` | crates/snapcast-server/src/lib.rs:105-105 | a chunk is non-empty if and only if the rate is at least 50 and there is a channel |
| `AudioSenders.DrainEndsExactly` | crates/snapcast-server/src/lib.rs:125-145 | the loop that sends full chunks ends, whatever is held, if and only if the rate is at least 50 and there is a channel |
| `AudioSenders.ChunkFrames` | crates/snapcast-server/src/lib.rs:131-134 | a chunk lasts rate / 50 frames |
| `AudioSenders.ChunkInNumbers` | crates/snapcast-server/src/lib.rs:105-105 | a chunk has rate / 50 frames of every channel |
| `AudioSenders.StampedAt` | crates/snapcast-server/src/lib.rs:135-138 | block k carries the server time of its first frame |
| `AudioSenders.F32AudioSender.Send` | crates/snapcast-server/src/lib.rs:119-147 | the blocks of what was held and what came in go out stamped; the rest is held; a gap drops what was held and restarts the clock |
| `AudioSenders.F32AudioSender.SendPieces` | crates/snapcast-server/src/lib.rs:119-147 | over a run without gaps the consecutive blocks of everything taken in go out on one clock |
| `AudioSenders.F32AudioSender.Flush` | crates/snapcast-server/src/lib.rs:151-168 | what is held goes out as one short stamped chunk |
| `Flac.SamplesOfWholeFrames` | crates/snapcast-server/src/encoder/flac.rs:163-183 | a chunk gives channels samples per whole frame, none for a trailing part of a frame |
| `Layout.SampleInNumbers` | crates/snapcast-server/src/encoder/flac.rs:170-181 | two or four bytes are the little-endian two's complement of the sample, which lies in its range |
| `Layout.SampleAt` | crates/snapcast-server/src/encoder/flac.rs:170-181 | sample k is that of the k-th bytes of its size |
| `Layout.AlignedInNumbers` | crates/snapcast-server/src/encoder/flac.rs:164-166 | the whole frames at the front of a chunk |
| `Flac.FlacEncoder.constructor` | crates/snapcast-server/src/encoder/flac.rs:143-153 | a new encoder has taken nothing in |
| `Flac.CreateEncoder` | crates/snapcast-server/src/encoder/flac.rs:99-154 | an encoder is made if and only if the format has at most 24 bits, 96 kHz and 1 to 8 channels and the FLAC library accepts it |
| `Flac.FlacEncoder.PcmToI32` | crates/snapcast-server/src/encoder/flac.rs:163-183 | the samples of the whole frames; samples of 0 bytes divide by zero, other sizes than 2 and 4 bytes are refused, nothing else is |
| `Flac.FlacEncoder.Encode` | crates/snapcast-server/src/encoder/flac.rs:195-244 | the full blocks leave in order and numbered on; the bytes are their encodings, unless a block fails: then it is lost, the samples behind it stay pending, and the call returns nothing of the blocks before it. As long as none has failed, a call fails if and only if a block of everything taken in does, and otherwise less than a block stays pending |
| `Flac.FlacEncoder.Drain` | crates/snapcast-server/src/encoder/flac.rs:214-244 | it fails if and only if some full block of the pending samples does |
| `Flac.FlacEncoder.EncodeChunks` | crates/snapcast-server/src/encoder/flac.rs:195-244 | any list of chunks: the bytes of all calls go on the stream of all blocks of everything taken in, numbered 0, 1, 2, ..., and it fails if and only if one of these blocks does |
| `Flac.SplitDoesNotMatter` | crates/snapcast-server/src/encoder/flac.rs:163-183 | chunks of whole frames have the samples of their bytes put together, however these are split |
| `Flac.FlacEncoder.EncoderPromises` | crates/snapcast-server/src/encoder/flac.rs:214-244 | blocks and pending samples are everything taken in; blocks are 1152 frames; pending is channel-aligned; as long as no block has failed, less than a block is pending and the blocks are those of everything taken in, numbered from 0 |
| `Flac.EncodeAllAppend` | crates/snapcast-server/src/encoder/flac.rs:219-241 | encoding in two goes is encoding at once, with the numbering going on |
| `Flac.OneBlock` | crates/snapcast-server/src/encoder/flac.rs:219-241 | one block is encoded under the number it is given |
| `Layout.BlockInNumbers` | crates/snapcast-server/src/encoder/flac.rs:214-217 | a block is 1152 frames of every channel |
| `Flac.LaterBlocksDoNotHelp` | crates/snapcast-server/src/encoder/flac.rs:214-244 | once a block has failed, the encoding of all blocks fails, whatever follows |
| `Wav.ParseRiffHeader` | crates/snapcast-client/src/decoder/mod.rs:42-90 | ends on every input without leaving it and returns what the walk says |
| `Wav.BuildWavHeader` | crates/snapcast-server/src/encoder/pcm.rs:57-79 | the 44 bytes that WavLayout describes |
| `Layout.WavLayout` | crates/snapcast-server/src/encoder/pcm.rs:57-79 | the 44 bytes in numbers: sizes 36, 16 and 0, tag 1, and the fields of the format |
| `Layout.RiffRefusals` | crates/snapcast-client/src/decoder/mod.rs:43-50 | less than 44 bytes are too small, anything without RIFF and WAVE is no header, and nothing else is refused for these reasons |
| `Wav.WavRoundTrip` | crates/snapcast-server/src/encoder/pcm.rs:57-79 | parsing the built header gives the format back if and only if the rate is positive |
| `Wav.FormatIsFound` | crates/snapcast-client/src/decoder/mod.rs:57-90 | the format is found behind any unknown chunks, whatever follows the data id |
| `Wav.ForeignIsSkipped` | crates/snapcast-client/src/decoder/mod.rs:76-78 | an unknown chunk is skipped, whatever it holds |
| `Wav.DataEndsWalk` | crates/snapcast-client/src/decoder/mod.rs:74-75 | the data chunk ends the walk |
| `Wav.WalkOfSuffix` | crates/snapcast-client/src/decoder/mod.rs:58-79 | the walk looks at nothing before its position |

## Left out

- Playout.PcmChunk.ReadFrames: chunks are values, and a method that moves the cursor returns the new chunk; updating one in place and aliasing between chunks are not captured.
- Playout.Stream.ReadNext: requires that the read does not stall, without which the loop does not end (`ReadLimits.ReadEndsExactly`), and chunks in the stream's own format with a positive rate and frame size, without which it divides by zero. The cut of frame sizes to 16 bits is not modelled.
- Playout.Stream.ReadWhole: this and everything built on it requires chunks of whole frames, on which a read never stalls.
- Playout.Stream.GetPlayerChunk: outside hard sync a request of 0 frames with a correction due is excluded, because the edit writes past the output (`ReadLimits.OnlyEmptyRequestsOverrun`), and requests above 2,146,410,432 frames are, because the frame counters would overflow.
- Lifetime.Live: calls are for 1 to 2,146,410,432 frames in every mode.
- ReadLimits.ReadEndsExactly: the output is taken to have room for the frames wanted, as it has for every request that is not too long for it.
- Playout.Stream.SetRealSampleRate: exact reals instead of 64-bit floats, so rounding at exact halves and the float error of the rate product are not captured.
- Playout.Stream.SkipStale: positions from rate times age are exact, where the program goes through 64-bit floats and saturates at 32 bits.
- Playout.Stream.StartChunk: the same holds for the silent frames before a chunk.
- Playout.Stream.Measure: log output and the reported statistics are left out.
- Timestamps.Timeval.Add: overflow wraps around as in a release build; a debug build stops instead. The same holds for Timestamps.Timeval.Sub.
- ClockSync.TimeProvider.SetDiff: the halving of latencies is exact, not in 64-bit floats.
- Groups.ServerState.constructor: a state restored from JSON by the embedder is not modelled; the step lemmas start from any state whose groups are a partition.
- Groups.ServerState.GroupForClient: id generation is a parameter, and collisions of random ids are excluded.
- Dispatch.SessionContext.Register: the window between releasing the state and registering the routing channel, and two live sessions with one client id, are not modelled.
- Sessions.SessionLoop: what a failed write leaves of its frame on the wire is not modelled; client reports are in Routing.
- Framing.Deserialize: JSON bodies are kept as text, so JSON errors are not modelled.
- AudioSenders.F32AudioSender.constructor: requires at least 50 Hz and one channel, without which the loop of the sender does not end (`AudioSenders.DrainEndsExactly`).
- AudioSenders.F32AudioSender.Send: a closed channel, which loses the chunk being sent, is not modelled.
- Flac.CreateEncoder: whether the FLAC library accepts a format is a parameter; the header it writes is not modelled.
- Flac.FlacEncoder.Encode: what a block is encoded to, and whether it fails, is an arbitrary function of its samples and number; the conversion of float input is not modelled.
- Wav.BuildWavHeader: alignment and byte rate wrap as in a release build; a debug build stops instead.
- The sample encoding tag of chunks and streams, which no modelled operation looks at.
- Settings updates, events and state snapshots sent to the embedder, AddStream, StreamControl and GetStatus, which leave state and routing alone.
- The wire_size functions, which only add up lengths.
- Authentication, client filters, JSON-RPC and HTTP, configuration, stream readers, codecs other than PCM and the block buffering of FLAC, encryption, resampling and audio devices.
- Tasks, sockets, timeouts, reconnection and the pending-request table.
