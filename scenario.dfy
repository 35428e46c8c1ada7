/** A worked run of the pipeline: a pre-roll and four clock ticks over two
    packets, the second of which the codec consumes in two calls. */
module Scenario {
  import opened Timing
  import opened Decoding

  /** Two ten-byte packets. */
  const First: Bytes := seq(10, _ => 1)
  const Second: Bytes := seq(10, _ => 2)

  /** Container timestamps count milliseconds from zero. */
  const Info := StreamInfo(NoPtsValue, Rational(1, 1000))

  /** A codec that decodes the first packet whole (picture at 0 ms), only six
      bytes of the second (picture at 40 ms), and then the remaining four
      (picture at 80 ms). */
  function Stub(fed: seq<Bytes>, pkt: Bytes): CodecOutput
  {
    if |fed| == 0 then CodecOutput(|pkt|, true, 0)
    else if |fed| == 1 then CodecOutput(6, true, 40)
    else CodecOutput(|pkt|, true, 80)
  }

  const Start := Pipe([], [First, Second], 0, 0, [])

  /** `preload` publishes the picture of the first packet and releases it. */
  lemma PreRoll()
    ensures var r := Drain(Stub, Info, Start);
      r.goOn && r.state.shown == [0] && r.state.last == 0 && r.state.queue == [Second]
  {
    var o := Step(Stub, Info, Start);
    StepByDecode(Stub, Info, Start);
    assert o.gotFrame && o.state.queue == [Second];
  }

  /** The second packet is consumed partly: its picture is published and its
      last four bytes are put back at the front of the queue. */
  lemma PartialPacket(s: Pipe)
    requires s.fed == [First] && s.queue == [Second]
    ensures var r := Drain(Stub, Info, s);
      r.goOn && r.state.shown == s.shown + [40] && r.state.last == 40_000 &&
      r.state.queue == [Second[6..]] && r.state.fed == [First, Second]
  {
    StepByDecode(Stub, Info, s);
    assert DecodedTimestamp(Info, 40) == 40_000;
  }

  /** The remainder of the second packet yields the last picture and empties
      the queue. */
  lemma Remainder(s: Pipe)
    requires |s.fed| == 2 && s.queue == [Second[6..]]
    ensures var r := Drain(Stub, Info, s);
      r.goOn && r.state.shown == s.shown + [80] && r.state.last == 80_000 && r.state.queue == []
  {
    StepByDecode(Stub, Info, s);
    assert DecodedTimestamp(Info, 80) == 80_000;
  }

  /** Ticks at 0, 40, 80 and 120 ms: the first is not late and does nothing,
      the next two each publish one picture, and the last is late by 40 ms
      but finds the queue empty, so it publishes nothing and reports no error. */
  lemma Playback()
    ensures var s1 := Drain(Stub, Info, Start).state;
      var s2 := Tick(Stub, Info, s1, 0);
      var s3 := Tick(Stub, Info, s2, 40_000);
      var s4 := Tick(Stub, Info, s3, 80_000);
      var s5 := Tick(Stub, Info, s4, 120_000);
      && s2 == s1
      && s3.shown == [0, 40] && s4.shown == [0, 40, 80]
      && Gap(s4.last, 120_000) == -40_000
      && Drain(Stub, Info, s4) == Drained(true, s4) && s5 == s4
  {
    PreRoll();
    var s1 := Drain(Stub, Info, Start).state;
    assert s1.fed == [First] by {
      StepByDecode(Stub, Info, Start);
    }
    PartialPacket(s1);
    var s3 := Drain(Stub, Info, s1).state;
    Remainder(s3);
  }
}
