/** Time arithmetic of the video stream: how a decoded picture's container
    timestamp becomes a playback-relative `sf::Time`, and the signed gap
    between that time and the playback clock.

    `sf::Time` is modelled by its count of microseconds (an `int`).
    `sf::milliseconds` takes a 32-bit millisecond count, so the 64-bit value
    handed to it is first narrowed to 32 bits, wrapping modulo 2^32 as the
    mainstream C++ compilers do. */
module Timing {

  type Positive = n: int | n > 0 witness 1

  /** A stream time base (`AVRational`): one tick lasts num / den seconds. */
  datatype Rational = Rational(num: int, den: Positive)

  /** The container's "no timestamp" marker, `AV_NOPTS_VALUE` (INT64_MIN). */
  const NoPtsValue: int := -0x8000_0000_0000_0000

  /** The stream facts the decoder reads: declared start time and time base. */
  datatype StreamInfo = StreamInfo(startTime: int, timeBase: Rational)

  function Abs(x: int): nat { if x < 0 then -x else x }

  /** The start time timestamps are measured from: the declared one, or 0 when
      the stream declares none. */
  function StartTime(info: StreamInfo): (r: int)
    ensures r != NoPtsValue
    ensures info.startTime != NoPtsValue ==> r == info.startTime
    ensures info.startTime == NoPtsValue ==> r == 0
  {
    if info.startTime != NoPtsValue then info.startTime else 0
  }

  /** Division that truncates toward zero, as the conversion of a `double` to
      an integer does. */
  function TruncDiv(a: int, b: Positive): int
  {
    if a >= 0 then a / b else -((-a) / b)
  }

  /** The quotient has the sign of the dividend and the largest magnitude
      whose multiple of the divisor does not exceed the dividend's. */
  lemma TruncDivBounds(a: int, b: Positive)
    ensures var q := TruncDiv(a, b);
      (a >= 0 ==> q >= 0) && (a <= 0 ==> q <= 0) &&
      Abs(q) * b <= Abs(a) < (Abs(q) + 1) * b
  {
  }

  /** Milliseconds between the stream start and a picture's timestamp: the
      exact value of 1000 * (timestamp - start) * num / den, truncated. */
  function RelativeMillis(info: StreamInfo, timestamp: int): (r: int)
    ensures timestamp == StartTime(info) ==> r == 0
    // with a non-negative time base, no picture after the start plays before it
    ensures timestamp >= StartTime(info) && info.timeBase.num >= 0 ==> r >= 0
  {
    var d := timestamp - StartTime(info);
    assert d >= 0 && info.timeBase.num >= 0 ==> 1000 * d * info.timeBase.num >= 0 by {
      if d >= 0 && info.timeBase.num >= 0 {
        assert 1000 * d >= 0;
      }
    }
    TruncDiv(1000 * (timestamp - StartTime(info)) * info.timeBase.num, info.timeBase.den)
  }

  const Int32Min: int := -0x8000_0000
  const Int32Max: int := 0x7fff_ffff

  predicate InInt32(x: int) { Int32Min <= x <= Int32Max }

  /** The conversion of a 64-bit integer to a 32-bit one: the value congruent
      to `x` modulo 2^32 in the 32-bit range. */
  function Narrow32(x: int): (r: int)
    ensures InInt32(x) ==> r == x
  {
    (x - Int32Min) % 0x1_0000_0000 + Int32Min
  }

  /** Narrowing always lands in the 32-bit range and keeps the value modulo
      2^32. */
  lemma Narrow32Wraps(x: int)
    ensures InInt32(Narrow32(x)) && (Narrow32(x) - x) % 0x1_0000_0000 == 0
  {
  }

  /** `sf::milliseconds`: a millisecond count, narrowed to 32 bits, as an
      `sf::Time`. */
  function Milliseconds(ms: int): (r: int)
    ensures InInt32(ms) ==> r == ms * 1000
  {
    Narrow32(ms) * 1000
  }

  /** The value stored as the last decoded timestamp for a picture. */
  function DecodedTimestamp(info: StreamInfo, timestamp: int): (r: int)
    ensures timestamp == StartTime(info) ==> r == 0
  {
    Milliseconds(RelativeMillis(info, timestamp))
  }

  /** Every stored playback time is a whole number of milliseconds within
      the 32-bit millisecond range, whatever the container timestamp. */
  lemma DecodedTimestampRange(info: StreamInfo, timestamp: int)
    ensures var r := DecodedTimestamp(info, timestamp);
      r % 1000 == 0 && Int32Min * 1000 <= r <= Int32Max * 1000
  {
    Narrow32Wraps(RelativeMillis(info, timestamp));
  }

  /** Last decoded timestamp minus the timer offset; negative means late. */
  function Gap(lastDecoded: int, timerOffset: int): int
  {
    lastDecoded - timerOffset
  }

  lemma MulCancel(x: int, y: int, b: Positive)
    requires x * b < y * b
    ensures x < y
  {
    assert (y - x) * b > 0;
  }

  lemma {:induction false} TruncDivMonotone(a1: int, a2: int, b: Positive)
    requires a1 <= a2
    ensures TruncDiv(a1, b) <= TruncDiv(a2, b)
  {
    var q1, q2 := TruncDiv(a1, b), TruncDiv(a2, b);
    TruncDivBounds(a1, b);
    TruncDivBounds(a2, b);
    if a1 >= 0 {
      // q1 * b <= a1 <= a2 < (q2 + 1) * b
      MulCancel(q1, q2 + 1, b);
    } else if a2 <= 0 {
      // -q2 * b <= -a2 <= -a1 < (-q1 + 1) * b
      MulCancel(-q2, -q1 + 1, b);
    }
  }

  /** With a non-negative time base, the millisecond offset is monotone in
      the container timestamp. */
  lemma {:induction false} RelativeMillisMonotone(info: StreamInfo, t1: int, t2: int)
    requires info.timeBase.num >= 0
    requires t1 <= t2
    ensures RelativeMillis(info, t1) <= RelativeMillis(info, t2)
  {
    var s, n := StartTime(info), info.timeBase.num;
    assert 1000 * (t1 - s) * n <= 1000 * (t2 - s) * n by {
      assert 1000 * (t2 - s) * n - 1000 * (t1 - s) * n == 1000 * (t2 - t1) * n;
      assert (t2 - t1) * n >= 0;
    }
    TruncDivMonotone(1000 * (t1 - s) * n, 1000 * (t2 - s) * n, info.timeBase.den);
  }

  /** With a non-negative time base, later pictures never get an earlier
      playback time, as long as both fall within the 32-bit millisecond range
      (about 24.8 days either side of the start). */
  lemma {:induction false} DecodedTimestampMonotone(info: StreamInfo, t1: int, t2: int)
    requires info.timeBase.num >= 0
    requires t1 <= t2
    requires InInt32(RelativeMillis(info, t1)) && InInt32(RelativeMillis(info, t2))
    ensures DecodedTimestamp(info, t1) <= DecodedTimestamp(info, t2)
  {
    RelativeMillisMonotone(info, t1, t2);
    assert DecodedTimestamp(info, t1) == RelativeMillis(info, t1) * 1000;
    assert DecodedTimestamp(info, t2) == RelativeMillis(info, t2) * 1000;
  }

  /** Past 2^31 - 1 milliseconds the narrowing wraps: with a millisecond time
      base, the picture one millisecond later plays about 24.8 days earlier
      than the start. */
  lemma DecodedTimestampWraps()
    ensures var info := StreamInfo(0, Rational(1, 1000));
      DecodedTimestamp(info, Int32Max) == Int32Max * 1000 &&
      DecodedTimestamp(info, Int32Max + 1) == Int32Min * 1000
  {
    var info := StreamInfo(0, Rational(1, 1000));
    assert RelativeMillis(info, Int32Max) == Int32Max;
    assert RelativeMillis(info, Int32Max + 1) == Int32Max + 1;
  }

  /** The picture at the stream's start time plays at time zero, and a stream
      without a declared start time counts from timestamp 0. */
  lemma StartPlaysAtZero(info: StreamInfo)
    ensures DecodedTimestamp(info, StartTime(info)) == 0
    ensures info.startTime == NoPtsValue ==> DecodedTimestamp(info, 0) == 0
  {
  }
}
