/** `sfe::VideoStream`: pulls packets from its queue, decodes them into the
    reused decoded-frame slot, publishes the converted picture to the texture,
    and records the picture's playback time for the synchronization gate. */
module VideoStreams {
  import opened Timing
  import opened Decoding
  import opened Packets

  class VideoStream {
    const packets: PacketQueue
    const codec: Codec
    const info: StreamInfo

    /** The codec's internal state: the chunks offered since the last flush. */
    var decoderState: seq<Bytes>
    /** `m_lastDecodedTimestamp`, in microseconds. */
    var lastDecodedTimestamp: int
    /** `m_rawVideoFrame`, by the best-effort timestamp of the picture in it. */
    var rawVideoFrame: int
    /** The pictures uploaded to the texture so far, oldest first. */
    ghost var published: seq<int>

    /** `m_rgbaVideoBuffer`: four plane addresses, 0 standing for null. */
    const rgbaVideoBuffer: array<int>
    /** `m_rgbaVideoLinesize`: the stride of each of the four planes. */
    const rgbaVideoLinesize: array<int>

    ghost predicate Valid()
      reads this, packets, packets.queue
    {
      packets.Valid() && rgbaVideoBuffer.Length == 4 && rgbaVideoLinesize.Length == 4
    }

    ghost function Snapshot(): Pipe
      reads this, packets, packets.queue
      requires Valid()
    {
      Pipe(decoderState, packets.Contents(), lastDecodedTimestamp, rawVideoFrame, published)
    }

    /** The field initialisation of the constructor; the plane allocation,
        texture creation and rescaler set-up that follow it are not modelled.
        `packets` is the queue the base class `Stream` keeps, not the
        constructor's `DataSource` argument. */
    constructor (packets: PacketQueue, codec: Codec, info: StreamInfo)
      requires packets.Valid()
      ensures Valid()
      ensures this.packets == packets && this.codec == codec && this.info == info
      ensures decoderState == [] && lastDecodedTimestamp == 0 && published == []
      ensures fresh(rgbaVideoBuffer) && fresh(rgbaVideoLinesize)
      ensures forall i :: 0 <= i < 4 ==> rgbaVideoBuffer[i] == 0 && rgbaVideoLinesize[i] == 0
    {
      this.packets, this.codec, this.info := packets, codec, info;
      decoderState, lastDecodedTimestamp, rawVideoFrame, published := [], 0, 0, [];
      var buffer := new int[4];
      var linesize := new int[4];
      for i := 0 to 4
        invariant forall k :: 0 <= k < i ==> buffer[k] == 0 && linesize[k] == 0
      {
        buffer[i] := 0;
        linesize[i] := 0;
      }
      rgbaVideoBuffer, rgbaVideoLinesize := buffer, linesize;
    }

    /** `getSynchronizationGap`: negative when the last decoded picture is
        already behind the timer. */
    function SynchronizationGap(timerOffset: int): (r: int)
      reads this
      ensures r < 0 <==> lastDecodedTimestamp < timerOffset
      ensures r + timerOffset == lastDecodedTimestamp
    {
      Gap(lastDecodedTimestamp, timerOffset)
    }

    /** `decodePacket`: one codec call on the packet's unconsumed bytes. */
    method DecodePacket(packet: Packet) returns (goOn: bool, gotFrame: bool, needsMoreDecoding: bool)
      requires packet.Valid()
      modifies this`decoderState, this`lastDecodedTimestamp, this`rawVideoFrame, packet`data, packet`size
      ensures packet.Valid()
      ensures var a := Decode(codec, info, old(decoderState), old(packet.Remaining()),
                              old(lastDecodedTimestamp), old(rawVideoFrame));
        goOn == a.goOn && gotFrame == a.gotFrame && needsMoreDecoding == a.needsMoreDecoding &&
        packet.Remaining() == a.rest && decoderState == a.fed &&
        lastDecodedTimestamp == a.last && rawVideoFrame == a.frame
      // the cursor moves by exactly the consumed length
      ensures var n := codec(old(decoderState), old(packet.Remaining())).decodedLength;
        needsMoreDecoding ==> packet.data == old(packet.data) + n && packet.size == old(packet.size) - n
    {
      needsMoreDecoding := false;
      var offered := packet.Remaining();
      var out := codec(decoderState, offered);
      decoderState := decoderState + [offered];
      var decodedLength := out.decodedLength;
      gotFrame := out.gotPicture;
      if gotFrame {
        rawVideoFrame := out.timestamp;
      }
      if decodedLength > 0 {
        if decodedLength < packet.size {
          needsMoreDecoding := true;
          packet.data := packet.data + decodedLength;
          packet.size := packet.size - decodedLength;
        }
        if gotFrame {
          var timestamp := rawVideoFrame;
          var ms := RelativeMillis(info, timestamp);
          lastDecodedTimestamp := Milliseconds(ms);
        }
        goOn := true;
      } else {
        goOn := false;
      }
    }

    /** The snapshot with `packet` back in front of the queue. */
    ghost function SnapshotHolding(packet: Packet): Pipe
      reads this, packets, packets.queue, packet
      requires Valid() && packet.Valid()
    {
      Pipe(decoderState, [packet.Remaining()] + packets.Contents(),
           lastDecodedTimestamp, rawVideoFrame, published)
    }

    /** The end of a pass of the `onGetData` loop: a packet that needs more
        decoding goes back to the front of the queue, any other is released. */
    method Settle(packet: Packet, needsMoreDecoding: bool)
      requires packets.Valid() && packet.Valid() && !packet.released && packet !in packets.queue
      modifies packet`released, packets
      ensures packets.Valid()
      ensures needsMoreDecoding ==>
        !packet.released && packets.queue == [packet] + old(packets.queue) &&
        packets.Contents() == [packet.Remaining()] + old(packets.Contents())
      ensures !needsMoreDecoding ==>
        packet.released && packets.queue == old(packets.queue) && packets.Contents() == old(packets.Contents())
    {
      if needsMoreDecoding {
        packets.Prepend(packet);
      } else {
        packet.released := true;
      }
    }

    /** One pass of the `onGetData` loop on a packet taken off the queue:
        decode it, publish the picture if one came out, then give the packet
        back at the front if it was only partly consumed, or release it. */
    method ConsumePacket(packet: Packet) returns (goOn: bool, gotFrame: bool, needsMoreDecoding: bool)
      requires Valid() && packet.Valid() && !packet.released && packet !in packets.queue
      modifies this`decoderState, this`lastDecodedTimestamp, this`rawVideoFrame, this`published
      modifies packet, packets
      ensures Valid()
      ensures var a := Decode(codec, info, old(decoderState), old(packet.Remaining()),
                              old(lastDecodedTimestamp), old(rawVideoFrame));
        goOn == a.goOn && gotFrame == a.gotFrame && needsMoreDecoding == a.needsMoreDecoding &&
        decoderState == a.fed && lastDecodedTimestamp == a.last && rawVideoFrame == a.frame &&
        published == (if a.gotFrame then old(published) + [a.frame] else old(published)) &&
        packets.Contents() == if a.needsMoreDecoding then [a.rest] + old(packets.Contents()) else old(packets.Contents())
      // the packet is either given back or released, never both and never neither
      ensures needsMoreDecoding ==> goOn && !packet.released && packets.queue == [packet] + old(packets.queue)
      ensures !needsMoreDecoding ==> packet.released && packets.queue == old(packets.queue)
    {
      ghost var rest := packets.Contents();
      ghost var a := Decode(codec, info, decoderState, packet.Remaining(), lastDecodedTimestamp, rawVideoFrame);
      goOn, gotFrame, needsMoreDecoding := DecodePacket(packet);
      assert packets.Contents() == rest && packet.Remaining() == a.rest;

      if gotFrame {
        // rescale into the RGBA buffer and upload it to the texture
        published := published + [rawVideoFrame];
      }

      Settle(packet, needsMoreDecoding);
    }

    /** The loop of `onGetData` holds `packet`, taken off the queue: `Q0`
        is the queue the call started from, split into the packets already
        released, the held one and those still queued, and draining from
        here ends where draining from `S0` does. */
    ghost predicate Holding(S0: Pipe, Q0: seq<Packet>, freed: seq<Packet>, packet: Packet)
      reads this, packets, packets.queue, packet, freed
      requires Valid()
    {
      AllReleased(freed) && Q0 == freed + [packet] + packets.queue &&
      packet.Valid() && !packet.released && packet !in packets.queue &&
      Drain(codec, info, S0) == Drain(codec, info, SnapshotHolding(packet))
    }

    /** The loop of `onGetData` has stopped with `goOn`: every packet of
        `Q0` no longer queued has been released, and the state is where
        draining from `S0` ends. */
    ghost predicate Finished(S0: Pipe, Q0: seq<Packet>, freed: seq<Packet>, goOn: bool)
      reads this, packets, packets.queue, freed
      requires Valid()
    {
      AllReleased(freed) && Q0 == freed + packets.queue &&
      Drain(codec, info, S0) == Drained(goOn, Snapshot())
    }

    /** The held packet has just been consumed: `Q0` is split into the
        packets released so far and those queued (the consumed packet among
        them when it was given back), and draining from `S0` ends where the
        loop will end from here, popping again or stopping. */
    ghost predicate Consumed(S0: Pipe, Q0: seq<Packet>, freed: seq<Packet>, goOn: bool, gotFrame: bool)
      reads this, packets, packets.queue, freed
      requires Valid()
    {
      AllReleased(freed) && Q0 == freed + packets.queue &&
      Drain(codec, info, S0) ==
        if !gotFrame && goOn then Drain(codec, info, Snapshot()) else Drained(goOn, Snapshot())
    }

    /** The body of the `onGetData` loop up to the pop: consume the held
        packet and account for it, released or given back. */
    method ConsumeHeld(packet: Packet, ghost S0: Pipe, ghost Q0: seq<Packet>, ghost freed: seq<Packet>)
      returns (goOn: bool, gotFrame: bool, ghost freed': seq<Packet>)
      requires Valid() && Holding(S0, Q0, freed, packet)
      modifies this`decoderState, this`lastDecodedTimestamp, this`rawVideoFrame, this`published
      modifies packet, packets
      ensures Valid() && Consumed(S0, Q0, freed', goOn, gotFrame)
      ensures !gotFrame && goOn ==>
        (packets.queue == [packet] + old(packets.queue) && packet.size < old(packet.size)) ||
        packets.queue == old(packets.queue)
    {
      ghost var X := SnapshotHolding(packet);
      assert X.queue[0] == packet.Remaining() && X.queue[1..] == packets.Contents();
      StepByDecode(codec, info, X);
      ghost var rest := packets.queue;
      var needsMoreDecoding;
      goOn, gotFrame, needsMoreDecoding := ConsumePacket(packet);
      assert Snapshot() == Step(codec, info, X).state;
      if needsMoreDecoding {
        freed' := freed;
        ConcatAssoc(freed, [packet], rest);
      } else {
        freed' := freed + [packet];
      }
    }

    /** `popEncodedData` in `onGetData`: before the loop, and at the end of
        a pass that neither produced a frame nor failed. */
    method TakeNext(ghost S0: Pipe, ghost Q0: seq<Packet>, ghost freed: seq<Packet>) returns (next: Packet?)
      requires Valid() && Consumed(S0, Q0, freed, true, false)
      modifies packets
      ensures Valid()
      ensures next == null ==> packets.queue == old(packets.queue) && Finished(S0, Q0, freed, true)
      ensures next != null ==> [next] + packets.queue == old(packets.queue) && next in Q0 && Holding(S0, Q0, freed, next)
    {
      next := packets.Pop();
      if next != null {
        ConcatAssoc(freed, [next], packets.queue);
      }
    }

    /** One pass of the `onGetData` loop: consume the held packet and, when
        that produced neither a picture nor an error, pop the next one. */
    method Advance(packet: Packet, ghost S0: Pipe, ghost Q0: seq<Packet>, ghost freed: seq<Packet>)
      returns (goOn: bool, gotFrame: bool, next: Packet?, ghost freed': seq<Packet>)
      requires Valid() && Holding(S0, Q0, freed, packet)
      modifies this`decoderState, this`lastDecodedTimestamp, this`rawVideoFrame, this`published
      modifies packet, packets
      ensures Valid()
      ensures !gotFrame && next != null && goOn ==>
        next in Q0 && Holding(S0, Q0, freed', next) &&
        (|packets.queue| < old(|packets.queue|) ||
         (|packets.queue| == old(|packets.queue|) && next.size < old(packet.size)))
      ensures !(!gotFrame && next != null && goOn) ==> Finished(S0, Q0, freed', goOn)
    {
      next := packet;
      goOn, gotFrame, freed' := ConsumeHeld(packet, S0, Q0, freed);
      if !gotFrame && goOn {
        next := TakeNext(S0, Q0, freed');
      }
    }

    /** `onGetData`: decode packets off the queue until a picture was
        uploaded, the queue ran dry, or a decode failed; `freed` lists the
        packets taken off the queue and released, in order. */
    method OnGetData() returns (goOn: bool, ghost freed: seq<Packet>)
      requires Valid()
      modifies this, packets, packets.queue
      ensures Valid()
      ensures var r := Drain(codec, info, old(Snapshot()));
        goOn == r.goOn && Snapshot() == r.state
      ensures old(packets.queue) == freed + packets.queue
      ensures AllReleased(freed)
    {
      ghost var S0 := Snapshot();
      ghost var Q0 := packets.queue;
      freed := [];
      assert Q0 == freed + packets.queue;
      var packet := TakeNext(S0, Q0, freed);
      var gotFrame := false;
      goOn := true;
      while !gotFrame && packet != null && goOn
        invariant Valid()
        invariant !gotFrame && packet != null && goOn ==> packet in Q0 && Holding(S0, Q0, freed, packet)
        invariant !(!gotFrame && packet != null && goOn) ==> Finished(S0, Q0, freed, goOn)
        decreases if !gotFrame && packet != null && goOn then |packets.queue| + 1 else 0,
                  if !gotFrame && packet != null && goOn then packet.size else 0
      {
        goOn, gotFrame, packet, freed := Advance(packet, S0, Q0, freed);
      }
    }

    /** `updateTexture`: decode only when the last picture is late. */
    method UpdateTexture(timerOffset: int) returns (ghost freed: seq<Packet>)
      requires Valid()
      modifies this, packets, packets.queue
      ensures Valid()
      ensures Snapshot() == Tick(codec, info, old(Snapshot()), timerOffset)
      ensures old(SynchronizationGap(timerOffset)) >= 0 ==>
        Snapshot() == old(Snapshot()) && packets.queue == old(packets.queue) && freed == []
      ensures published == old(published) || published == old(published) + [rawVideoFrame]
      ensures old(packets.queue) == freed + packets.queue && AllReleased(freed)
    {
      freed := [];
      if SynchronizationGap(timerOffset) < 0 {
        var goOn;
        goOn, freed := OnGetData();
      }
    }

    /** `preload`: one forced run of the packet loop. */
    method Preload() returns (ghost freed: seq<Packet>)
      requires Valid()
      modifies this, packets, packets.queue
      ensures Valid()
      ensures Snapshot() == Drain(codec, info, old(Snapshot())).state
      ensures old(packets.queue) == freed + packets.queue && AllReleased(freed)
    {
      var goOn;
      goOn, freed := OnGetData();
    }

    /** `willPlay`: pre-roll the first picture regardless of the gate. */
    method WillPlay() returns (ghost freed: seq<Packet>)
      requires Valid()
      modifies this, packets, packets.queue
      ensures Valid()
      ensures Snapshot() == Drain(codec, info, old(Snapshot())).state
      ensures old(packets.queue) == freed + packets.queue && AllReleased(freed)
    {
      freed := Preload();
    }

    /** `didPlay`: nothing to do. */
    method DidPlay()
      requires Valid()
      ensures Valid() && Snapshot() == old(Snapshot())
    {
    }

    /** `didPause`: nothing to do. */
    method DidPause()
      requires Valid()
      ensures Valid() && Snapshot() == old(Snapshot())
    {
    }

    /** `didStop`: flush the codec, which forgets everything it was fed. */
    method DidStop()
      requires Valid()
      modifies this`decoderState
      ensures Valid()
      ensures Snapshot() == old(Snapshot()).(fed := [])
    {
      decoderState := [];
    }
  }
}
