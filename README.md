# sfeMovie `VideoStream` decode pipeline, modelled in Dafny

This project models the video stream of sfeMovie (`sfe::VideoStream`). The
stream pulls compressed packets from its queue and decodes them. A codec may
consume a packet over several calls, so the stream keeps a cursor in the
packet and puts a partly consumed packet back at the front of the queue. It
publishes each decoded picture to the texture and records the picture's
playback time. A gate compares that time with the playback clock and decodes
only when the stream is late. Lifecycle hooks pre-roll a picture (`willPlay`,
`preload`) and flush the codec (`didStop`).

The model has two layers:

- A pure specification in `decoding.dfy`, over a snapshot `Pipe` of the
  stream. The snapshot holds the decoder history, the queue's unconsumed
  bytes, the last decoded timestamp, the decoded-frame slot and the pictures
  published so far. `Decode` is one codec call. `Step` is one pass of the
  packet loop. `Drain` is the whole loop of `onGetData`. `Tick` is
  `updateTexture`.
- Imperative classes (`packets.dfy`, `video_stream.dfy`), proved against those
  functions:
  - `Packet` has an in-place cursor (`data`, `size`) and a `released` flag.
  - `PacketQueue` is the stream's own packet queue, kept by the base class
    `Stream`. It is not the constructor's `DataSource` argument, which is not
    part of this model.
  - `VideoStream` has the decoder state, `m_lastDecodedTimestamp`,
    `m_rawVideoFrame`, the two four-entry plane arrays, and a ghost log of
    published pictures.

`drain_properties.dfy` proves what the loop guarantees for every codec and
every queue. `timing.dfy` holds the timestamp conversion, its 32-bit
narrowing and its monotonicity. `scenario.dfy` is a worked run with a stub codec.

The codec is an oracle: a function from the chunks offered since the last
flush, and the bytes offered now, to (bytes consumed, picture produced,
best-effort timestamp). `sf::Time` is counted in microseconds.

Three behaviours of the code are worth stating outright, because the model
keeps them:

- A decode that fails but still reports a picture publishes that picture
  without moving the last decoded timestamp. `gotFrame` is set from the
  codec's report before the consumed length is checked
  (src/VideoStream.cpp:144-147), `onGetData` uploads whenever `gotFrame` is
  set (113-116), and the timestamp is only written on a successful decode
  (154-159). `Decode` and `Step` keep this behaviour.
- The update gate is strict. A gap of exactly zero does not decode
  (src/VideoStream.cpp:95). `Scenario.Playback` shows this on its first tick.
- `sf::milliseconds` takes a 32-bit count, so the 64-bit millisecond value of
  line 157 is narrowed at line 158. A picture more than 2^31 - 1 ms (about
  24.8 days) from the start wraps to a time far in the past.
  `Timing.DecodedTimestampWraps` exhibits this.

## Model

| member | source | states |
|---|---|---|
| Timing.TruncDivBounds | src/VideoStream.cpp:157 | the integer conversion of the millisecond value truncates toward zero: the quotient has the dividend's sign and the largest magnitude whose multiple does not exceed it |
| Timing.TruncDivMonotone | src/VideoStream.cpp:157 | truncating division by a positive time-base denominator is monotone |
| Timing.StartTime | src/VideoStream.cpp:156 | a declared start time is used as is, and a stream that declares none (AV_NOPTS_VALUE) counts from 0 |
| Timing.RelativeMillis | src/VideoStream.cpp:155-157 | the picture at the start time is 0 ms from it; with a non-negative time base no picture after the start gets a negative offset |
| Timing.RelativeMillisMonotone | src/VideoStream.cpp:155-157 | with a non-negative time base the millisecond offset is monotone in the container timestamp |
| Timing.Narrow32 | src/VideoStream.cpp:158 | the 64-bit millisecond count passed to the 32-bit parameter of `sf::milliseconds` is unchanged when it fits |
| Timing.Narrow32Wraps | src/VideoStream.cpp:158 | the narrowed count always lies in the 32-bit range and equals the original modulo 2^32 |
| Timing.Milliseconds | src/VideoStream.cpp:158 | a millisecond count that fits in 32 bits becomes that many thousand microseconds |
| Timing.DecodedTimestamp | src/VideoStream.cpp:154-158 | the picture at the stream start plays at time 0 |
| Timing.DecodedTimestampRange | src/VideoStream.cpp:157-158 | every stored playback time is a whole number of milliseconds within the 32-bit millisecond range |
| Timing.DecodedTimestampMonotone | src/VideoStream.cpp:155-158 | with a non-negative time base, a later container timestamp never gives an earlier playback time while both offsets fit the 32-bit millisecond range |
| Timing.DecodedTimestampWraps | src/VideoStream.cpp:157-158 | with a millisecond time base, the picture at 2^31 - 1 ms plays at that time but the one a millisecond later plays at -2^31 ms: the narrowing wraps |
| Timing.StartPlaysAtZero | src/VideoStream.cpp:156-158 | the picture at the declared start time plays at 0; with no declared start time (AV_NOPTS_VALUE), timestamps count from 0 |
| Decoding.Decode | src/VideoStream.cpp:139-165 | the call goes on iff the codec consumed a positive length; the packet needs more decoding iff 0 < consumed < remaining; then the remainder is exactly the bytes after the consumed ones, otherwise the packet is untouched; the last decoded timestamp changes only on a successful decode that produced a picture, and is then that picture's playback time; the frame slot holds the new picture whenever one came out, even on failure |
| Decoding.Step | src/VideoStream.cpp:107-128 | one pass publishes exactly the picture it decoded (or nothing); a failed pass releases the head packet; a pass that continues shortens the queue or the head packet, so the loop terminates |
| Decoding.Drain | src/VideoStream.cpp:101-132 | with an empty queue the loop makes no attempt and reports success; a run uploads at most one picture, the one left in the frame slot |
| Decoding.Tick | src/VideoStream.cpp:93-99 | while the synchronization gap is not negative nothing changes; otherwise at most one picture is published |
| DrainProperties.DrainStopsForFrameOrStarvation | src/VideoStream.cpp:103-131 | when the loop reports success it published a picture or emptied the queue |
| DrainProperties.DrainSyncFollowsPublish | src/VideoStream.cpp:111-159 | the last decoded timestamp changes only together with a publish, and then equals the published picture's playback time; conversely a run that succeeds after publishing leaves that picture's playback time as the last decoded timestamp |
| DrainProperties.DrainKeepsStreamOrder | src/VideoStream.cpp:118-123 | no queued byte is reordered or dropped from the middle: the bytes still queued are a suffix of those queued before |
| DrainProperties.DrainTouchesOnlyHead | src/VideoStream.cpp:118-123 | only the packet at the front can be partly consumed; every packet behind it is an original packet, in order |
| DrainProperties.DrainFailureDiscards | src/VideoStream.cpp:111-123 | a failed decode ends the loop with the failing packet released and not put back: the queue left is a proper suffix of the original |
| DrainProperties.DrainFeedsDecoder | src/VideoStream.cpp:103-111 | the decoder history only grows, and a run makes at least one decode attempt iff the queue was not empty |
| Packets.PacketQueue.Pop | src/VideoStream.cpp:103 | `popEncodedData` (base-class behaviour, assumed): the front packet and the rest of the queue, or null on an empty queue; the popped packet is unreleased, no longer queued, and its bytes were the queue's first |
| Packets.PacketQueue.Prepend | src/VideoStream.cpp:119 | `prependEncodedData` (base-class behaviour, assumed): the packet goes back in front, with its unconsumed bytes first in the queue |
| VideoStreams.VideoStream.constructor | src/VideoStream.cpp:36-50 | the last decoded timestamp starts at zero, the decoder is fresh, nothing is published, and all four plane pointers and line sizes are zero |
| VideoStreams.VideoStream.SynchronizationGap | src/VideoStream.cpp:134-137 | the gap is negative exactly when the last decoded timestamp is behind the timer offset, and adding the offset back gives that timestamp |
| VideoStreams.VideoStream.DecodePacket | src/VideoStream.cpp:139-165 | flags, frame slot, decoder state and timestamp are those of `Decode`; on partial consumption the cursor advances, and the size shrinks, by exactly the consumed length |
| VideoStreams.VideoStream.ConsumePacket | src/VideoStream.cpp:108-123 | the pass is `Step`: a picture is published iff one came out; the packet is either put back at the front (needs more decoding) or released, never both and never neither |
| VideoStreams.VideoStream.Settle | src/VideoStream.cpp:118-123 | a packet that needs more decoding is put back in front, unreleased, with its unconsumed bytes first; any other is released and the queue is unchanged |
| VideoStreams.VideoStream.ConsumeHeld | src/VideoStream.cpp:108-123 | after a pass every packet taken off the queue is released or queued again, and the loop's outcome is unchanged |
| VideoStreams.VideoStream.TakeNext | src/VideoStream.cpp:125-128 | the pop before the loop, and after a pass with neither picture nor error, takes the front packet, or ends the loop with success on an empty queue |
| VideoStreams.VideoStream.Advance | src/VideoStream.cpp:107-128 | one iteration keeps the loop's accounting (popped packets released or queued again, outcome still that of `Drain`) and shrinks the queue or the held packet |
| VideoStreams.VideoStream.OnGetData | src/VideoStream.cpp:101-132 | the result and the new state are those of `Drain`; the packets that left the queue are exactly its first packets, in order, and every one of them was released |
| VideoStreams.VideoStream.UpdateTexture | src/VideoStream.cpp:93-99 | the new state is `Tick`: with a gap that is not negative nothing changes, the same packet objects stay queued and none is freed; otherwise at most one picture is published, and the packets that left the queue are its first ones, all released |
| VideoStreams.VideoStream.Preload | src/VideoStream.cpp:182-185 | one unconditional run of the packet loop: the new state is `Drain`'s, and the packets that left the queue are its first ones, all released |
| VideoStreams.VideoStream.WillPlay | src/VideoStream.cpp:187-190 | pre-rolls by one unconditional run of the packet loop, whatever the gate says, with the same packet accounting as `Preload` |
| VideoStreams.VideoStream.DidPlay | src/VideoStream.cpp:192-195 | changes nothing |
| VideoStreams.VideoStream.DidPause | src/VideoStream.cpp:197-200 | changes nothing |
| VideoStreams.VideoStream.DidStop | src/VideoStream.cpp:202-205 | the codec forgets everything fed to it; nothing else changes |
| Scenario.PreRoll | src/VideoStream.cpp:182-185 | with the stub codec, pre-roll publishes the first picture and releases the first packet |
| Scenario.PartialPacket | src/VideoStream.cpp:147-152 | a packet consumed six bytes out of ten publishes its picture and goes back to the queue with its last four bytes |
| Scenario.Playback | src/VideoStream.cpp:93-99 | ticks at 0, 40, 80 and 120 ms: the first does nothing, the next two publish one picture each, and the last is 40 ms late but finds the queue empty and ends without error |

## Left out

- The FFmpeg calls are not modelled. The codec is an oracle parameter, and `avcodec_flush_buffers` clears the history that oracle sees.
- `rescale` (`sws_scale`) and `texture.update` are not modelled. A publish is recorded as the picture's timestamp in a ghost log.
- The pixel contents, `initRescaler` and `getVideoTexture` are not modelled.
- The allocations in the constructor are not modelled: `av_frame_alloc`, `av_image_alloc` and `sf::Texture::create`. Neither are their `CHECK` aborts or the destructor. Construction is assumed to succeed.
- The conversion of the timestamp goes through `double` (`av_q2d`). The model uses the exact rational value, truncated toward zero, so it does not capture floating-point rounding.
- The 64-bit product `1000 * (timestamp - startTime)` can overflow, and so can the `double`-to-64-bit conversion. The model does not capture either; the later narrowing to 32 bits is modelled.
- Timing.DecodedTimestampMonotone: holds only while both millisecond offsets fit in 32 bits, because past that the narrowing at line 158 wraps (see `Timing.DecodedTimestampWraps`).
- The narrowing to 32 bits follows the modular conversion that mainstream compilers perform (the C++ standard leaves it implementation-defined before C++20).
- `getStreamKind` (src/VideoStream.cpp:83-86) returns a constant and is not modelled.
- The best-effort timestamp is taken as the codec reports it, as the code does. An AV_NOPTS_VALUE picture timestamp is not special-cased, because the code does not special-case it either.
- `popEncodedData`, `prependEncodedData` and the queue belong to the base class `Stream`, which is not part of this model. Their behaviour is modelled as pop-from-front and push-to-front on a sequence of packets.
- The playback timer is not modelled. Its offset is a parameter of `UpdateTexture` and `SynchronizationGap`.
- The timer and status arguments of the lifecycle hooks are dropped, because the hooks do not read them.
- Logging (`sfeLogDebug`) is not modelled.
- The `CHECK(packet != NULL)` inside the loop cannot fail, because the loop condition excludes a null packet.
- `m_rawVideoFrame` is represented only by the best-effort timestamp of the picture it holds.
