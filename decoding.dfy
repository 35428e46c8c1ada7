/** The decode step of the video stream as pure functions: one codec call on a
    packet (`decodePacket`), one pass of the packet loop, and the whole loop
    (`onGetData`) over an abstract snapshot of the stream. The methods of
    `VideoStreams.VideoStream` are proved against these functions. */
module Decoding {
  import opened Timing

  type Bytes = seq<bv8>

  /** What one call of the codec reports: bytes consumed (negative on error),
      whether a picture came out, and that picture's best-effort timestamp. */
  datatype CodecOutput = CodecOutput(decodedLength: int, gotPicture: bool, timestamp: int)

  /** The codec as an oracle. Its internal state (reference frames and the
      like) is determined by the chunks it was offered since the last flush,
      so it is a function of that history and of the bytes offered now. */
  type Codec = (seq<Bytes>, Bytes) -> CodecOutput

  /** The outcome of one decode attempt: the three flags `decodePacket` hands
      back, the packet's unconsumed bytes, and the decoder state, last decoded
      timestamp and decoded-frame slot afterwards. */
  datatype Attempt = Attempt(
    goOn: bool, gotFrame: bool, needsMoreDecoding: bool,
    rest: Bytes, fed: seq<Bytes>, last: int, frame: int)

  /** One decode attempt on the packet bytes `pkt`. */
  function Decode(codec: Codec, info: StreamInfo, fed: seq<Bytes>, pkt: Bytes, last: int, frame: int): (a: Attempt)
    ensures var out := codec(fed, pkt);
      && a.fed == fed + [pkt]
      && a.gotFrame == out.gotPicture
      && (a.goOn <==> out.decodedLength > 0)
      && (a.needsMoreDecoding <==> 0 < out.decodedLength < |pkt|)
      // partial consumption: what is left is exactly the bytes after the consumed ones
      && (a.needsMoreDecoding ==> 0 < |a.rest| < |pkt| && pkt == pkt[..out.decodedLength] + a.rest)
      && (!a.needsMoreDecoding ==> a.rest == pkt)
      // the sync state moves only after a successful decode that produced a picture
      && (a.last != last ==> a.goOn && a.gotFrame)
      && (a.goOn && a.gotFrame ==> a.last == DecodedTimestamp(info, a.frame))
      && (a.gotFrame ==> a.frame == out.timestamp) && (!a.gotFrame ==> a.frame == frame)
  {
    var out := codec(fed, pkt);
    var frame' := if out.gotPicture then out.timestamp else frame;
    if out.decodedLength > 0 then
      var more := out.decodedLength < |pkt|;
      Attempt(true, out.gotPicture, more,
              if more then pkt[out.decodedLength..] else pkt,
              fed + [pkt],
              if out.gotPicture then DecodedTimestamp(info, frame') else last,
              frame')
    else
      Attempt(false, out.gotPicture, false, pkt, fed + [pkt], last, frame')
  }

  /** All queued bytes, in decode order. */
  function Concat(q: seq<Bytes>): Bytes
  {
    if q == [] then [] else q[0] + Concat(q[1..])
  }

  /** The stream as the packet loop sees it: decoder history, the packet queue
      (each packet by its unconsumed bytes), the last decoded timestamp, the
      decoded-frame slot, and the pictures published so far. */
  datatype Pipe = Pipe(fed: seq<Bytes>, queue: seq<Bytes>, last: int, frame: int, shown: seq<int>)

  datatype Outcome = Outcome(goOn: bool, gotFrame: bool, state: Pipe)

  /** One pass of the packet loop on the head of the queue: decode it, publish
      the picture if one came out, then put a partly consumed packet back at
      the front or release the packet. */
  function Step(codec: Codec, info: StreamInfo, s: Pipe): (r: Outcome)
    requires s.queue != []
    ensures r.state.shown == if r.gotFrame then s.shown + [r.state.frame] else s.shown
    ensures !r.goOn ==> r.state.queue == s.queue[1..]
    // a pass that goes on leaves fewer packets, or as many with a shorter first one
    ensures r.goOn && !r.gotFrame ==>
      |r.state.queue| < |s.queue| ||
      (|r.state.queue| == |s.queue| && |r.state.queue[0]| < |s.queue[0]|)
  {
    var a := Decode(codec, info, s.fed, s.queue[0], s.last, s.frame);
    var queue := if a.needsMoreDecoding then [a.rest] + s.queue[1..] else s.queue[1..];
    var shown := if a.gotFrame then s.shown + [a.frame] else s.shown;
    Outcome(a.goOn, a.gotFrame, Pipe(a.fed, queue, a.last, a.frame, shown))
  }

  /** An unfolding hint, not a property: `Step` written out through the
      decode attempt it makes, for proofs that reason about that attempt. */
  lemma StepByDecode(codec: Codec, info: StreamInfo, s: Pipe)
    requires s.queue != []
    ensures var a := Decode(codec, info, s.fed, s.queue[0], s.last, s.frame);
      Step(codec, info, s) ==
        Outcome(a.goOn, a.gotFrame,
                Pipe(a.fed, if a.needsMoreDecoding then [a.rest] + s.queue[1..] else s.queue[1..],
                     a.last, a.frame, if a.gotFrame then s.shown + [a.frame] else s.shown))
  {
  }

  datatype Drained = Drained(goOn: bool, state: Pipe)

  /** The packet loop of `onGetData`: run passes until a picture came out, the
      queue is empty, or a decode failed. */
  function Drain(codec: Codec, info: StreamInfo, s: Pipe): (r: Drained)
    ensures s.queue == [] ==> r == Drained(true, s)
    // one run uploads at most one picture, the one left in the frame slot
    ensures r.state.shown == s.shown || r.state.shown == s.shown + [r.state.frame]
    decreases |s.queue|, if s.queue == [] then 0 else |s.queue[0]|
  {
    if s.queue == [] then Drained(true, s)
    else
      var o := Step(codec, info, s);
      if o.goOn && !o.gotFrame then Drain(codec, info, o.state) else Drained(o.goOn, o.state)
  }

  /** `updateTexture`: run the packet loop only when the stream is late. */
  function Tick(codec: Codec, info: StreamInfo, s: Pipe, timerOffset: int): (r: Pipe)
    ensures Gap(s.last, timerOffset) >= 0 ==> r == s
    ensures r.shown == s.shown || r.shown == s.shown + [r.frame]
  {
    if Gap(s.last, timerOffset) < 0 then Drain(codec, info, s).state else s
  }
}
