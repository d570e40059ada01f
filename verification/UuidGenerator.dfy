/** The monotonic UUID version 7 generator (sections 5.7 and 6.2 of RFC 9562). */
module UuidGenerator {
  import opened Text
  import opened Uuid

  type Byte = b: int | 0 <= b < 256

  const TWO_56: nat := 0x100_0000_0000_0000
  const TWO_62: nat := 0x4000_0000_0000_0000
  const TWO_76: nat := 0x1000_0000_0000_0000_0000
  const TWO_80: nat := 0x1_0000_0000_0000_0000_0000

  function Timestamp(v: nat): nat { v / TWO_80 }

  function Version(v: nat): nat { (v / TWO_76) % 16 }

  function Variant(v: nat): nat { (v / TWO_62) % 4 }

  function LowBits(v: nat): nat { v % TWO_62 }

  /** Version 7 with variant binary 10. */
  predicate IsV7(v: nat) { Version(v) == 7 && Variant(v) == 2 }

  /** `int.from_bytes(_, "big")`. */
  function BigEndian(bytes: seq<Byte>): (n: nat) {
    if bytes == [] then 0 else 256 * BigEndian(bytes[..|bytes| - 1]) + bytes[|bytes| - 1]
  }

  /** Setting the version and variant bits of sixteen bytes. */
  function Stamped(raw: seq<Byte>): seq<Byte>
    requires |raw| == 16
  {
    raw[6 := raw[6] % 16 + 0x70][8 := raw[8] % 64 + 0x80]
  }

  lemma {:induction false} BigEndianConcat(a: seq<Byte>, b: seq<Byte>)
    ensures BigEndian(a + b) == BigEndian(a) * Pow16(2 * |b|) + BigEndian(b)
  {
    if b == [] {
      assert a + b == a;
    } else {
      var last := b[|b| - 1];
      assert (a + b)[..|a + b| - 1] == a + b[..|b| - 1];
      BigEndianConcat(a, b[..|b| - 1]);
      var p := Pow16(2 * (|b| - 1));
      assert Pow16(2 * |b|) == 16 * Pow16(2 * |b| - 1) == 256 * p;
      assert 256 * (BigEndian(a) * p) == BigEndian(a) * (256 * p);
    }
  }

  lemma {:induction false} BigEndianBound(b: seq<Byte>)
    ensures 0 <= BigEndian(b) < Pow16(2 * |b|)
  {
    if b != [] {
      BigEndianBound(b[..|b| - 1]);
      assert Pow16(2 * |b|) == 16 * Pow16(2 * |b| - 1) == 256 * Pow16(2 * (|b| - 1));
    }
  }

  /** `n.to_bytes(width, "big")`. */
  function ToBytes(n: nat, width: nat): (b: seq<Byte>)
    ensures |b| == width
  {
    if width == 0 then [] else ToBytes(n / 256, width - 1) + [n % 256]
  }

  lemma {:induction false} BigEndianOfToBytes(n: nat, width: nat)
    requires n < Pow16(2 * width)
    ensures BigEndian(ToBytes(n, width)) == n
  {
    if width > 0 {
      assert Pow16(2 * width) == 16 * Pow16(2 * width - 1) == 256 * Pow16(2 * (width - 1));
      BigEndianOfToBytes(n / 256, width - 1);
      var b := ToBytes(n, width);
      assert b[..|b| - 1] == ToBytes(n / 256, width - 1);
    }
  }

  /** The value drawn before it is compared with the last one issued. */
  function Fresh(clock: nat, random: seq<Byte>): nat
    requires |random| == 10
  {
    BigEndian(Stamped(ToBytes(clock, 6) + random))
  }

  /** The timestamp, the three bytes that are stamped or follow one, and the random rest. */
  lemma FreshFields(clock: nat, random: seq<Byte>)
    requires |random| == 10 && clock < TWO_48
    ensures var b0, b1, b2 := random[0] % 16 + 0x70, random[1] as int, random[2] % 64 + 0x80;
      Fresh(clock, random) == clock * TWO_80 + ((b0 * 256 + b1) * 256 + b2) * TWO_56 + BigEndian(random[3..])
  {
    var stamped := Stamped(ToBytes(clock, 6) + random);
    var time, tail := stamped[..6], stamped[6..];
    assert time == ToBytes(clock, 6) && stamped == time + tail && tail[3..] == random[3..];
    assert Pow16(12) == TWO_48 && Pow16(14) == TWO_56;
    assert Pow16(20) == TWO_80 by { Pow16Sum(6, 14); }
    BigEndianOfToBytes(clock, 6);
    BigEndianConcat(time, tail);
    BigEndianOfThree(tail);
  }

  lemma FreshShape(clock: nat, random: seq<Byte>)
    requires |random| == 10 && clock < TWO_48
    ensures var v := Fresh(clock, random);
      IsV7(v) && Timestamp(v) == clock && v % TWO_80 < 8 * TWO_76
  {
    FreshFields(clock, random);
    assert Pow16(14) == TWO_56;
    BigEndianBound(random[3..]);
    FieldsOf(clock, random[0] % 16 + 0x70, random[1] as int, random[2] % 64 + 0x80, BigEndian(random[3..]));
  }

  lemma BigEndianOfThree(tail: seq<Byte>)
    requires |tail| == 10
    ensures 0 <= BigEndian(tail[3..]) < TWO_56
    ensures BigEndian(tail) == (((tail[0] as int) * 256 + tail[1]) * 256 + tail[2]) * TWO_56 + BigEndian(tail[3..])
  {
    var head, low := tail[..3], tail[3..];
    assert tail == head + low && Pow16(14) == TWO_56;
    BigEndianConcat(head, low);
    BigEndianBound(low);
    assert head[..2] == tail[..2] && head[..2][..1] == tail[..1] && tail[..1][..0] == [];
    assert BigEndian(tail[..1]) == tail[0];
    assert BigEndian(tail[..2]) == (tail[0] as int) * 256 + tail[1] by { assert tail[..2][..1] == tail[..1]; }
    assert BigEndian(head) == BigEndian(tail[..2]) * 256 + tail[2];
  }

  lemma FieldsOf(clock: nat, b0: int, b1: int, b2: int, low: int)
    requires 0x70 <= b0 < 0x80 && 0 <= b1 < 256 && 0x80 <= b2 < 0xC0 && 0 <= low < TWO_56
    ensures var v := clock * TWO_80 + ((b0 * 256 + b1) * 256 + b2) * TWO_56 + low;
      IsV7(v) && Timestamp(v) == clock && v % TWO_80 < 8 * TWO_76
  {
    var v := clock * TWO_80 + ((b0 * 256 + b1) * 256 + b2) * TWO_56 + low;
    assert v / TWO_80 == clock;
    assert v / TWO_76 == clock * 16 + 7;
    assert v / TWO_62 == clock * 0x4_0000 + b0 * 0x400 + b1 * 4 + 2;
  }

  datatype Draw = Draw(clock: int, random: seq<Byte>) {
    /** Ten random bytes, and a clock that fits in six bytes: otherwise the source raises before it issues. */
    predicate Encodable() { 0 <= clock < TWO_48 }
  }

  predicate WellFormed(draws: seq<Draw>) { forall d <- draws :: |d.random| == 10 }

  /** The last value after one call. */
  function Advance(last: nat, draw: Draw): nat
    requires |draw.random| == 10
  {
    if !draw.Encodable() then last
    else
      var drawn := Fresh(draw.clock, draw.random);
      if drawn <= last then last + 1 else drawn
  }

  /** What one call returns; `None` stands for an exception. */
  function Issued(last: nat, draw: Draw): Option<Id>
    requires |draw.random| == 10
  {
    var next := Advance(last, draw);
    if draw.Encodable() && next < TWO_128 then Some(next) else None
  }

  function LastAfter(last: nat, draws: seq<Draw>): nat
    requires WellFormed(draws)
  {
    if draws == [] then last
    else Advance(LastAfter(last, draws[..|draws| - 1]), draws[|draws| - 1])
  }

  class Generator {
    var last: nat

    constructor ()
      ensures last == 0
    {
      last := 0;
    }

    /** `uuid7()`, the whole call under its lock. */
    method Mint(draw: Draw) returns (issued: Option<Id>)
      requires |draw.random| == 10
      modifies this
      ensures last == Advance(old(last), draw)
      ensures issued == Issued(old(last), draw)
    {
      if !draw.Encodable() {
        return None;
      }
      var bytes := ToBytes(draw.clock, 6) + draw.random;
      var raw := new Byte[16](i requires 0 <= i < 16 => bytes[i]);
      assert raw[..] == bytes;
      raw[6] := raw[6] % 16 + 0x70;
      raw[8] := raw[8] % 64 + 0x80;
      assert raw[..] == Stamped(bytes);
      var value := BigEndian(raw[..]);
      BigEndianBound(raw[..]);
      if value <= last {
        value := last + 1;
      }
      last := value;
      return if value < TWO_128 then Some(value) else None;
    }
  }

  /** The greatest encodable clock reading among the draws, 0 when there is none. */
  function MaxClock(draws: seq<Draw>): (m: nat) {
    if draws == [] then 0
    else
      var before := MaxClock(draws[..|draws| - 1]);
      var d := draws[|draws| - 1];
      if d.Encodable() && d.clock > before then d.clock else before
  }

  lemma {:induction false} LastAfterPrefix(last: nat, draws: seq<Draw>, i: nat)
    requires WellFormed(draws) && i < |draws|
    ensures WellFormed(draws[..i]) && WellFormed(draws[..i + 1])
    ensures LastAfter(last, draws[..i + 1]) == Advance(LastAfter(last, draws[..i]), draws[i])
  {
    var shorter := draws[..i + 1];
    assert shorter[..|shorter| - 1] == draws[..i];
  }

  lemma {:induction false} LastGrows(last: nat, draws: seq<Draw>, i: nat, j: nat)
    requires WellFormed(draws) && i <= j <= |draws|
    ensures LastAfter(last, draws[..i]) <= LastAfter(last, draws[..j])
    decreases j
  {
    if i < j {
      LastGrows(last, draws, i, j - 1);
      LastAfterPrefix(last, draws, j - 1);
    }
  }

  /** Whatever the clock and the random source do, a later identifier is greater than every earlier one. */
  lemma StrictlyIncreasing(last: nat, draws: seq<Draw>, i: nat, j: nat)
    requires WellFormed(draws) && i < j < |draws|
    ensures WellFormed(draws[..i]) && WellFormed(draws[..j])
    ensures var first := Issued(LastAfter(last, draws[..i]), draws[i]);
      var second := Issued(LastAfter(last, draws[..j]), draws[j]);
      first.Some? && second.Some? ==> last < first.value < second.value
  {
    LastAfterPrefix(last, draws, i);
    LastAfterPrefix(last, draws, j);
    LastGrows(last, draws, i + 1, j);
    LastGrows(last, draws, 0, i);
    assert draws[..0] == [];
  }

  /** The invariant of a run from a fresh process: n calls can only have carried n into the low bits. */
  lemma {:induction false} RunTimestamp(draws: seq<Draw>)
    requires WellFormed(draws) && |draws| <= 8 * TWO_76
    ensures Timestamp(LastAfter(0, draws)) == MaxClock(draws) < TWO_48
    ensures LastAfter(0, draws) % TWO_80 < 8 * TWO_76 + |draws|
  {
    if draws != [] {
      var before, d := draws[..|draws| - 1], draws[|draws| - 1];
      RunTimestamp(before);
      if d.Encodable() { FreshShape(d.clock, d.random); }
    }
  }

  function Later(a: nat, b: nat): nat { if a <= b then b else a }

  /** The call draws a newer value, or the increment stays below the timestamp. */
  predicate HasRoom(last: nat, draw: Draw)
    requires |draw.random| == 10
  {
    draw.Encodable() ==> Fresh(draw.clock, draw.random) > last || last % TWO_80 + 1 < TWO_80
  }

  /** The timestamp after one call is the later of the clock and the one before, exactly when there is room. */
  lemma NextTimestamp(last: nat, draw: Draw)
    requires |draw.random| == 10 && draw.Encodable()
    ensures Timestamp(Advance(last, draw)) == Later(draw.clock, Timestamp(last)) <==> HasRoom(last, draw)
  {
    FreshShape(draw.clock, draw.random);
    TimestampOfGreater(last, Fresh(draw.clock, draw.random), draw.clock);
  }

  lemma TimestampOfGreater(last: nat, drawn: nat, clock: nat)
    requires Timestamp(drawn) == clock
    ensures Timestamp(if drawn <= last then last + 1 else drawn) == Later(clock, Timestamp(last)) <==>
      drawn > last || last % TWO_80 + 1 < TWO_80
  {
    if drawn <= last {
      assert Timestamp(drawn) <= Timestamp(last);
      assert last == Timestamp(last) * TWO_80 + last % TWO_80;
    }
  }

  /** Every call of the run so far had room. */
  predicate Steady(draws: seq<Draw>)
    requires WellFormed(draws)
  {
    draws == [] ||
    var earlier := draws[..|draws| - 1];
    Steady(earlier) && HasRoom(LastAfter(0, earlier), draws[|draws| - 1])
  }

  /** After every call of the run so far the timestamp was the greatest clock reading. */
  predicate TracksClock(draws: seq<Draw>)
    requires WellFormed(draws)
  {
    draws == [] || (TracksClock(draws[..|draws| - 1]) && Timestamp(LastAfter(0, draws)) == MaxClock(draws))
  }

  /**
   * Over any run, of any length, the timestamp is always the greatest clock reading so far, so that a
   * clock that steps back is held, exactly when every call had room.
   */
  lemma {:induction false} TimestampIsRunningMaximum(draws: seq<Draw>)
    requires WellFormed(draws)
    ensures TracksClock(draws) <==> Steady(draws)
  {
    if draws != [] {
      var earlier, last := draws[..|draws| - 1], draws[|draws| - 1];
      TimestampIsRunningMaximum(earlier);
      assert TracksClock(earlier) ==> Timestamp(LastAfter(0, earlier)) == MaxClock(earlier);
      if last.Encodable() { NextTimestamp(LastAfter(0, earlier), last); }
    }
  }

  /** The first 2^79 calls all have room, so the clock is tracked and every encodable reading is issued. */
  lemma {:induction false} EarlyCallsTrackClock(draws: seq<Draw>, draw: Draw)
    requires WellFormed(draws + [draw]) && |draws| < 8 * TWO_76
    ensures WellFormed(draws) && |draw.random| == 10 && TracksClock(draws)
    ensures var issued := Issued(LastAfter(0, draws), draw);
      && (issued.Some? <==> draw.Encodable())
      && (issued.Some? ==> Timestamp(issued.value) == MaxClock(draws + [draw]))
    decreases |draws|
  {
    assert forall d <- draws :: d in draws + [draw];
    assert draw in draws + [draw];
    assert (draws + [draw])[..|draws|] == draws;
    RunTimestamp(draws + [draw]);
    if draws != [] {
      var earlier, last := draws[..|draws| - 1], draws[|draws| - 1];
      assert earlier + [last] == draws;
      EarlyCallsTrackClock(earlier, last);
      RunTimestamp(draws);
    }
  }

  /** Adding k keeps the version and the variant exactly while the low 62 bits do not overflow. */
  lemma IncrementsKeepShape(v: nat, k: nat)
    requires IsV7(v) && k <= TWO_62
    ensures IsV7(v + k) <==> LowBits(v) + k < TWO_62
    ensures IsV7(v + k) ==> Timestamp(v + k) == Timestamp(v)
  {
    var high, low := v / TWO_62, v % TWO_62;
    if low + k < TWO_62 {
      assert (v + k) / TWO_62 == high;
    } else {
      assert (v + k) / TWO_62 == high + 1;
    }
    ShapeFromHigh(v);
    ShapeFromHigh(v + k);
  }

  const ALL_ONES: seq<Byte> := seq(10, _ => 255)

  lemma {:induction false} BigEndianOfOnes(b: seq<Byte>)
    requires forall k :: 0 <= k < |b| ==> b[k] == 255
    ensures BigEndian(b) == Pow16(2 * |b|) - 1
  {
    if b != [] {
      BigEndianOfOnes(b[..|b| - 1]);
      assert Pow16(2 * |b|) == 16 * Pow16(2 * |b| - 1) == 256 * Pow16(2 * (|b| - 1));
    }
  }

  /**
   * Two calls can lose the variant. At any clock, when all random bits come up as ones, the first call
   * issues a well-shaped identifier with a full low field, and a second such call increments it.
   */
  lemma TwoCallsCanSpill(clock: nat)
    requires clock < TWO_48
    ensures var draw := Draw(clock, ALL_ONES);
      var first := Advance(0, draw);
      && Issued(0, draw) == Some(first) && IsV7(first)
      && Issued(first, draw) == Some(first + 1) && !IsV7(first + 1)
  {
    var draw := Draw(clock, ALL_ONES);
    var v := Fresh(clock, ALL_ONES);
    FreshFields(clock, ALL_ONES);
    FreshShape(clock, ALL_ONES);
    BigEndianOfOnes(ALL_ONES[3..]);
    assert Pow16(14) == TWO_56;
    FullLowField(clock, v);
    IncrementsKeepShape(v, 1);
  }

  lemma FullLowField(clock: nat, v: nat)
    requires clock < TWO_48 && v == clock * TWO_80 + ((0x7F * 256 + 255) * 256 + 0xBF) * TWO_56 + TWO_56 - 1
    ensures LowBits(v) == TWO_62 - 1 && 0 < v < TWO_128 - 1
  {
    assert v == (clock * 0x4_0000 + 0x7F * 0x400 + 255 * 4 + 2) * TWO_62 + (TWO_62 - 1);
  }

  lemma ShapeFromHigh(v: nat)
    ensures Variant(v) == (v / TWO_62) % 4
    ensures Version(v) == (v / TWO_62 / 0x4000) % 16
    ensures Timestamp(v) == v / TWO_62 / 0x4_0000
  {
  }

  /** One call after a well-shaped value: the shape is lost only by incrementing a full low field. */
  lemma NextKeepsShape(last: nat, draw: Draw)
    requires |draw.random| == 10 && draw.Encodable()
    requires last == 0 || IsV7(last)
    ensures IsV7(Advance(last, draw)) <==>
      Fresh(draw.clock, draw.random) > last || LowBits(last) + 1 < TWO_62
  {
    FreshShape(draw.clock, draw.random);
    ShapeOfGreater(last, Fresh(draw.clock, draw.random));
  }

  lemma ShapeOfGreater(last: nat, drawn: nat)
    requires IsV7(drawn) && (last == 0 || IsV7(last))
    ensures IsV7(if drawn <= last then last + 1 else drawn) <==> drawn > last || LowBits(last) + 1 < TWO_62
  {
    if IsV7(last) {
      IncrementsKeepShape(last, 1);
    } else {
      assert drawn > 0;
    }
  }
}
