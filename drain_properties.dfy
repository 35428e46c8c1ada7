/** What the packet loop guarantees, for every codec and every queue. */
module DrainProperties {
  import opened Timing
  import opened Decoding

  predicate IsSuffix(a: Bytes, b: Bytes)
  {
    |a| <= |b| && a == b[|b| - |a|..]
  }

  lemma SuffixTransitive(a: Bytes, b: Bytes, c: Bytes)
    requires IsSuffix(a, b) && IsSuffix(b, c)
    ensures IsSuffix(a, c)
  {
    assert b[|b| - |a|..] == c[|c| - |b|..][|b| - |a|..];
  }

  /** The loop ends without error only once a picture was published or the
      queue ran dry. */
  lemma {:induction false} DrainStopsForFrameOrStarvation(codec: Codec, info: StreamInfo, s: Pipe)
    ensures var r := Drain(codec, info, s);
      r.goOn ==> r.state.shown == s.shown + [r.state.frame] || r.state.queue == []
    decreases |s.queue|, if s.queue == [] then 0 else |s.queue[0]|
  {
    if s.queue != [] {
      var o := Step(codec, info, s);
      if o.goOn && !o.gotFrame {
        DrainStopsForFrameOrStarvation(codec, info, o.state);
      }
    }
  }

  /** The last decoded timestamp changes only together with a publish, and is
      then the playback time of the published picture; conversely, a run that
      succeeds after publishing leaves that picture's playback time as the
      last decoded timestamp. */
  lemma {:induction false} DrainSyncFollowsPublish(codec: Codec, info: StreamInfo, s: Pipe)
    ensures var d := Drain(codec, info, s); var r := d.state;
      && (r.last != s.last ==> r.shown == s.shown + [r.frame] && r.last == DecodedTimestamp(info, r.frame))
      && (d.goOn && r.shown != s.shown ==> r.last == DecodedTimestamp(info, r.frame))
    decreases |s.queue|, if s.queue == [] then 0 else |s.queue[0]|
  {
    if s.queue != [] {
      StepByDecode(codec, info, s);
      var o := Step(codec, info, s);
      if o.goOn && !o.gotFrame {
        DrainSyncFollowsPublish(codec, info, o.state);
      }
    }
  }

  lemma ConcatCons(p: Bytes, t: seq<Bytes>)
    ensures Concat([p] + t) == p + Concat(t)
  {
    assert ([p] + t)[1..] == t;
  }

  lemma {:induction false} StepKeepsStreamOrder(codec: Codec, info: StreamInfo, s: Pipe)
    requires s.queue != []
    ensures IsSuffix(Concat(Step(codec, info, s).state.queue), Concat(s.queue))
  {
    var a := Decode(codec, info, s.fed, s.queue[0], s.last, s.frame);
    var pkt, tail := s.queue[0], s.queue[1..];
    assert s.queue == [pkt] + tail;
    ConcatCons(pkt, tail);
    if a.needsMoreDecoding {
      ConcatCons(a.rest, tail);
      var n := codec(s.fed, pkt).decodedLength;
      assert pkt + Concat(tail) == pkt[..n] + (a.rest + Concat(tail));
    }
  }

  /** No queued byte is dropped from the middle or reordered: what is still
      queued afterwards is a suffix of what was queued before. */
  lemma {:induction false} DrainKeepsStreamOrder(codec: Codec, info: StreamInfo, s: Pipe)
    ensures IsSuffix(Concat(Drain(codec, info, s).state.queue), Concat(s.queue))
    decreases |s.queue|, if s.queue == [] then 0 else |s.queue[0]|
  {
    if s.queue != [] {
      var o := Step(codec, info, s);
      StepKeepsStreamOrder(codec, info, s);
      if o.goOn && !o.gotFrame {
        DrainKeepsStreamOrder(codec, info, o.state);
        SuffixTransitive(Concat(Drain(codec, info, o.state).state.queue), Concat(o.state.queue), Concat(s.queue));
      }
    }
  }

  /** `q` keeps the tail of `t`: all of `q` but its head is a suffix of `t`. */
  predicate KeepsTail(q: seq<Bytes>, t: seq<Bytes>)
  {
    |q| <= |t| && (q != [] ==> q[1..] == t[|t| - |q| + 1..])
  }

  lemma KeepsTailTransitive(q: seq<Bytes>, m: seq<Bytes>, t: seq<Bytes>)
    requires KeepsTail(q, m) && KeepsTail(m, t)
    ensures KeepsTail(q, t)
  {
    if q != [] {
      assert m[|m| - |q| + 1..] == m[1..][|m| - |q|..];
    }
  }

  lemma StepTouchesOnlyHead(codec: Codec, info: StreamInfo, s: Pipe)
    requires s.queue != []
    ensures KeepsTail(Step(codec, info, s).state.queue, s.queue)
  {
  }

  /** Only the packet at the front can have been partly consumed: every packet
      behind it is one of the original packets, untouched and in order. */
  lemma {:induction false} DrainTouchesOnlyHead(codec: Codec, info: StreamInfo, s: Pipe)
    ensures KeepsTail(Drain(codec, info, s).state.queue, s.queue)
    decreases |s.queue|, if s.queue == [] then 0 else |s.queue[0]|
  {
    if s.queue != [] {
      var o := Step(codec, info, s);
      StepTouchesOnlyHead(codec, info, s);
      if o.goOn && !o.gotFrame {
        DrainTouchesOnlyHead(codec, info, o.state);
        KeepsTailTransitive(Drain(codec, info, o.state).state.queue, o.state.queue, s.queue);
      }
    }
  }

  /** `q` is what is left of `t` after dropping at least its first element. */
  predicate IsProperSuffix(q: seq<Bytes>, t: seq<Bytes>)
  {
    |q| < |t| && q == t[|t| - |q|..]
  }

  /** A proper suffix of `m` is one of anything whose tail `m` keeps. */
  lemma ProperSuffixOfTail(q: seq<Bytes>, m: seq<Bytes>, t: seq<Bytes>)
    requires IsProperSuffix(q, m) && KeepsTail(m, t)
    ensures IsProperSuffix(q, t)
  {
    assert q == m[1..][|m| - |q| - 1..];
    assert t[|t| - |m| + 1..][|m| - |q| - 1..] == t[|t| - |q|..];
  }

  /** A failed decode ends the loop with the failing packet released rather
      than put back: the queue left is a proper suffix of the original one. */
  lemma {:induction false} DrainFailureDiscards(codec: Codec, info: StreamInfo, s: Pipe)
    ensures var r := Drain(codec, info, s);
      !r.goOn ==> IsProperSuffix(r.state.queue, s.queue)
    decreases |s.queue|, if s.queue == [] then 0 else |s.queue[0]|
  {
    if s.queue != [] {
      var o := Step(codec, info, s);
      if o.goOn && !o.gotFrame {
        var r := Drain(codec, info, o.state);
        assert Drain(codec, info, s) == r;
        DrainFailureDiscards(codec, info, o.state);
        StepTouchesOnlyHead(codec, info, s);
        if !r.goOn {
          ProperSuffixOfTail(r.state.queue, o.state.queue, s.queue);
        }
      } else if !o.goOn {
        assert Drain(codec, info, s) == Drained(false, o.state);
        assert o.state.queue == s.queue[1..];
        assert IsProperSuffix(o.state.queue, s.queue);
      }
    }
  }

  /** Every run on a non-empty queue makes at least one decode attempt, and
      decoding only appends to the decoder's history. */
  lemma {:induction false} DrainFeedsDecoder(codec: Codec, info: StreamInfo, s: Pipe)
    ensures var f := Drain(codec, info, s).state.fed;
      |s.fed| <= |f| && f[..|s.fed|] == s.fed && (|f| > |s.fed| <==> s.queue != [])
    decreases |s.queue|, if s.queue == [] then 0 else |s.queue[0]|
  {
    if s.queue != [] {
      var o := Step(codec, info, s);
      if o.goOn && !o.gotFrame {
        DrainFeedsDecoder(codec, info, o.state);
        var f := Drain(codec, info, o.state).state.fed;
        assert f[..|s.fed|] == f[..|o.state.fed|][..|s.fed|];
      }
    }
  }
}
