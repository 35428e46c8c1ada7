/** Compressed packets and the queue they wait in.

    A `Packet` is an `AVPacket`: a byte buffer with a cursor (`data`, `size`)
    that decoding moves forward in place. A `PacketQueue` is the stream's own
    packet queue, kept by the base class `Stream` and filled from the demuxer
    (the `DataSource` the stream is built with, which is not modelled); only
    its pop-from-front and push-to-front behaviour is modelled. */
module Packets {
  import opened Decoding

  class Packet {
    /** The buffer as the demuxer filled it. */
    const buffer: Bytes
    /** Offset of the cursor into `buffer` (`AVPacket.data`). */
    var data: int
    /** Bytes left after the cursor (`AVPacket.size`). */
    var size: int
    /** Set once the packet has been handed to `av_free_packet` and `av_free`. */
    var released: bool

    ghost predicate Valid()
      reads this
    {
      0 <= data && 0 <= size && data + size == |buffer|
    }

    /** The bytes not yet consumed by the decoder. */
    function Remaining(): (r: Bytes)
      reads this
      requires Valid()
      ensures |r| == size
    {
      buffer[data..]
    }

    constructor (payload: Bytes)
      ensures Valid() && buffer == payload && Remaining() == payload && !released
    {
      buffer := payload;
      data, size, released := 0, |payload|, false;
    }
  }

  /** The unconsumed bytes of each packet of `ps`, in order. */
  ghost function Remainders(ps: seq<Packet>): (r: seq<Bytes>)
    reads ps
    requires forall i :: 0 <= i < |ps| ==> ps[i].Valid()
    ensures |r| == |ps| && forall i :: 0 <= i < |ps| ==> r[i] == ps[i].Remaining()
  {
    if ps == [] then [] else [ps[0].Remaining()] + Remainders(ps[1..])
  }

  /** Every packet of `ps` has been handed back to the allocator. */
  ghost predicate AllReleased(ps: seq<Packet>)
    reads ps
  {
    forall p :: p in ps ==> p.released
  }

  lemma ConcatAssoc(a: seq<Packet>, b: seq<Packet>, c: seq<Packet>)
    ensures a + b + c == a + (b + c)
  {
  }

  class PacketQueue {
    var queue: seq<Packet>

    /** Each queued packet is queued once, is well formed and is still owned. */
    ghost predicate Valid()
      reads this, queue
    {
      (forall i, j :: 0 <= i < j < |queue| ==> queue[i] != queue[j]) &&
      (forall i :: 0 <= i < |queue| ==> queue[i].Valid() && !queue[i].released)
    }

    ghost function Contents(): seq<Bytes>
      reads this, queue
      requires Valid()
    {
      Remainders(queue)
    }

    constructor ()
      ensures Valid() && queue == []
    {
      queue := [];
    }

    /** `popEncodedData`: the front packet, or null when the queue is empty. */
    method Pop() returns (p: Packet?)
      requires Valid()
      modifies this
      ensures Valid()
      ensures old(queue) == [] ==> p == null && queue == []
      ensures old(queue) != [] ==> p == old(queue)[0] && queue == old(queue)[1..]
      ensures p != null ==>
        (old(queue) == [p] + queue && p.Valid() && !p.released && p !in queue &&
         old(Contents()) == [p.Remaining()] + Contents())
    {
      if queue == [] {
        p := null;
      } else {
        p := queue[0];
        queue := queue[1..];
        assert old(Contents()) == [p.Remaining()] + Contents();
      }
    }

    /** `prependEncodedData`: give a packet back at the front. */
    method Prepend(p: Packet)
      requires Valid() && p.Valid() && !p.released && p !in queue
      modifies this
      ensures Valid() && queue == [p] + old(queue)
      ensures Contents() == [p.Remaining()] + old(Contents())
    {
      queue := [p] + queue;
      assert queue[1..] == old(queue);
    }
  }
}
