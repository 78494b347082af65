/**
 The polyline decoder (six decimals) against the standard encoder of the Google
 Encoded Polyline Algorithm Format. Coordinates are integer micro-degrees. The
 accumulator is the 64-bit pattern of the source's `i64`.
 */
module Polyline {
  import opened Common

  type Byte = b: int | 0 <= b < 256

  const TWO62: int := 0x4000_0000_0000_0000
  const TWO63: int := 0x8000_0000_0000_0000
  const TWO64: int := 0x1_0000_0000_0000_0000

  /** A decoded position, in the order the decoder emits it. */
  datatype Coord = Coord(lng: int, lat: int)

  datatype Piece = Piece(value: int, next: nat)

  /** `x << shift` without a width. */
  function Shl(x: nat, shift: nat): nat {
    x * Pow2(shift)
  }

  predicate InI64(x: int) {
    -TWO63 <= x < TWO63
  }

  /** The signed reading of a 64-bit pattern. */
  function Signed(u: int): int {
    if u < TWO63 then u else u - TWO64
  }

  /** `if result & 1 == 1 { !(result >> 1) } else { result >> 1 }`, the shift being arithmetic. */
  function UnZigzag(u: int): int {
    var half := Signed(u) / 2;
    if u % 2 == 1 then -half - 1 else half
  }

  /** One byte of a component is valid at this shift. */
  predicate ByteOk(b: Byte, shift: nat) {
    63 <= b <= 126 && shift <= 60
  }

  /** Bitwise or. */
  function Or(a: nat, b: nat): nat {
    if a == 0 && b == 0 then 0
    else 2 * Or(a / 2, b / 2) + if a % 2 == 1 || b % 2 == 1 then 1 else 0
  }

  /** `result | ((value & 0x1f) << shift)`; bits shifted past bit 63 are lost. */
  function Accumulate(result: nat, b: Byte, shift: nat): nat
    requires b >= 63
  {
    Or(result, Shl((b - 63) % 32, shift) % TWO64)
  }

  /** Decodes one component from `index` on: its value and the index behind its last byte. */
  function Component(bytes: seq<Byte>, index: nat, result: nat, shift: nat): Option<Piece>
    decreases |bytes| - index
  {
    if index >= |bytes| || !ByteOk(bytes[index], shift) then None
    else
      var acc := Accumulate(result, bytes[index], shift);
      if bytes[index] - 63 < 32 then Some(Piece(UnZigzag(acc), index + 1))
      else Component(bytes, index + 1, acc, shift + 5)
  }

  datatype Position = Position(coord: Coord, next: nat)

  /** Decodes one position from `index` on, the previous one being (lat, lng). */
  function NextPosition(bytes: seq<Byte>, index: nat, lat: int, lng: int): Option<Position> {
    match Component(bytes, index, 0, 0)
    case None => None
    case Some(dLat) =>
      if !InI64(lat + dLat.value) then None
      else
        match Component(bytes, dLat.next, 0, 0)
        case None => None
        case Some(dLng) =>
          if !InI64(lng + dLng.value) then None
          else Some(Position(Coord(lng + dLng.value, lat + dLat.value), dLng.next))
  }

  function Prepend(head: seq<Coord>, tail: Option<seq<Coord>>): Option<seq<Coord>> {
    match tail
    case None => None
    case Some(coords) => Some(head + coords)
  }

  /** Decodes every position from `index` to the end. */
  function DecodeFrom(bytes: seq<Byte>, index: nat, lat: int, lng: int): Option<seq<Coord>>
    decreases |bytes| - index
  {
    if index >= |bytes| then Some([])
    else
      match NextPosition(bytes, index, lat, lng)
      case None => None
      case Some(p) =>
        PositionAdvances(bytes, index, lat, lng);
        Prepend([p.coord], DecodeFrom(bytes, p.next, p.coord.lat, p.coord.lng))
  }

  function Decode(bytes: seq<Byte>): Option<seq<Coord>> {
    DecodeFrom(bytes, 0, 0, 0)
  }

  // ----- what a decoded component looks like

  predicate Continues(b: Byte) {
    95 <= b <= 126
  }

  predicate Terminates(b: Byte) {
    63 <= b < 95
  }

  /** Bytes `[i, j)` are one complete component: continuation bytes and one terminator, at most `room` in all. */
  predicate OneComponent(bytes: seq<Byte>, i: nat, j: nat, room: nat) {
    && i < j <= |bytes| && j - i <= room
    && (forall k :: i <= k < j - 1 ==> Continues(bytes[k]))
    && Terminates(bytes[j - 1])
  }

  /** A component decodes exactly when complete bytes are there, and consumes exactly those. */
  lemma {:induction false} ComponentAdvances(bytes: seq<Byte>, index: nat, result: nat, shift: nat)
    ensures var c := Component(bytes, index, result, shift);
            c.Some? ==> shift <= 60 && OneComponent(bytes, index, c.value.next, (60 - shift) / 5 + 1)
    decreases |bytes| - index
  {
    if index < |bytes| && ByteOk(bytes[index], shift) && !Terminates(bytes[index]) {
      ComponentAdvances(bytes, index + 1, Accumulate(result, bytes[index], shift), shift + 5);
    }
  }

  /** A position decodes from two complete components and consumes exactly those. */
  lemma PositionAdvances(bytes: seq<Byte>, index: nat, lat: int, lng: int)
    ensures var p := NextPosition(bytes, index, lat, lng);
            p.Some? ==> index < p.value.next <= |bytes| &&
                        exists mid :: OneComponent(bytes, index, mid, 13) && OneComponent(bytes, mid, p.value.next, 13)
  {
    hide OneComponent;
    ComponentAdvances(bytes, index, 0, 0);
    var c := Component(bytes, index, 0, 0);
    if c.Some? {
      ComponentAdvances(bytes, c.value.next, 0, 0);
      Ordered(bytes, index, c.value.next);
      if Component(bytes, c.value.next, 0, 0).Some? {
        Ordered(bytes, c.value.next, Component(bytes, c.value.next, 0, 0).value.next);
      }
    }
  }

  lemma Ordered(bytes: seq<Byte>, i: nat, j: nat)
    ensures OneComponent(bytes, i, j, 13) ==> i < j <= |bytes|
  {
  }

  lemma {:induction false} CompleteComponentDecodes(bytes: seq<Byte>, i: nat, j: nat, result: nat, shift: nat)
    requires shift <= 60 && OneComponent(bytes, i, j, (60 - shift) / 5 + 1)
    ensures Component(bytes, i, result, shift).Some? && Component(bytes, i, result, shift).value.next == j
    decreases j - i
  {
    if i < j - 1 {
      assert Continues(bytes[i]);
      CompleteComponentDecodes(bytes, i + 1, j, Accumulate(result, bytes[i], shift), shift + 5);
    }
  }

  /** Whatever the bytes, a decoded component lies in [-2^62, 2^62). */
  lemma {:induction false} ComponentRange(bytes: seq<Byte>, index: nat, result: nat, shift: nat)
    requires result < Pow2(shift)
    ensures var c := Component(bytes, index, result, shift); c.Some? ==> -TWO62 <= c.value.value < TWO62
    decreases |bytes| - index
  {
    if index < |bytes| && ByteOk(bytes[index], shift) {
      AccumulateFits(result, bytes[index], shift);
      if !Terminates(bytes[index]) {
        if shift + 5 <= 60 {
          ComponentRange(bytes, index + 1, Accumulate(result, bytes[index], shift), shift + 5);
        }
      }
    }
  }

  lemma Pow2Step(shift: nat)
    ensures Pow2(shift + 5) == 32 * Pow2(shift)
  {
    assert Pow2(shift + 5) == 2 * Pow2(shift + 4);
    assert Pow2(shift + 4) == 2 * Pow2(shift + 3);
    assert Pow2(shift + 3) == 2 * Pow2(shift + 2);
    assert Pow2(shift + 2) == 2 * Pow2(shift + 1);
  }

  lemma Pow2At60()
    ensures Pow2(60) == 0x1000_0000_0000_0000
  {
    assert Pow2(0) == 1;
    Pow2Step(0); Pow2Step(5); Pow2Step(10); Pow2Step(15); Pow2Step(20); Pow2Step(25);
    Pow2Step(30); Pow2Step(35); Pow2Step(40); Pow2Step(45); Pow2Step(50); Pow2Step(55);
  }

  lemma {:induction false} OrZero(b: nat)
    ensures Or(0, b) == b
  {
    if b > 0 {
      OrZero(b / 2);
    }
  }

  /** Or-ing a multiple of 2^shift onto lower bits adds it. */
  lemma {:induction false} OrOfDisjointBitsIsSum(a: nat, m: nat, shift: nat)
    requires a < Pow2(shift)
    ensures Or(a, m * Pow2(shift)) == a + m * Pow2(shift)
  {
    if shift == 0 {
      OrZero(m);
    } else {
      var half := m * Pow2(shift - 1);
      assert m * Pow2(shift) == 2 * half;
      OrOfDisjointBitsIsSum(a / 2, m, shift - 1);
      assert (2 * half) / 2 == half && (2 * half) % 2 == 0;
    }
  }

  /** The chunk that survives the shift is a multiple of 2^shift. */
  lemma SurvivingChunk(chunk: nat, shift: nat) returns (m: nat)
    requires chunk < 32 && shift <= 60
    ensures Shl(chunk, shift) % TWO64 == m * Pow2(shift)
  {
    Pow2At60();
    if shift < 60 {
      Pow2Monotone(shift, 59);
      assert Pow2(60) == 2 * Pow2(59);
      hide Pow2;
      ShlBound(chunk, shift);
      KeepsSmall(Shl(chunk, shift));
      m := chunk;
    } else {
      TopChunk(chunk);
      m := chunk % 16;
    }
  }

  /** The accumulator's or is a sum: each chunk lands above everything read so far. */
  lemma AccumulateIsSum(result: nat, b: Byte, shift: nat)
    requires shift <= 60 && result < Pow2(shift) && b >= 63
    ensures Accumulate(result, b, shift) == result + Shl((b - 63) % 32, shift) % TWO64
  {
    var m := SurvivingChunk((b - 63) % 32, shift);
    OrOfDisjointBitsIsSum(result, m, shift);
  }

  /** Accumulating keeps the pattern within its bits: below the next shift, and always below 2^64. */
  lemma AccumulateFits(result: nat, b: Byte, shift: nat)
    requires shift <= 60 && result < Pow2(shift) && b >= 63
    ensures Accumulate(result, b, shift) < TWO64
    ensures Accumulate(result, b, shift) < Pow2(shift + 5)
  {
    hide Pow2, Shl, Accumulate;
    AccumulateIsSum(result, b, shift);
    Pow2Step(shift);
    ShiftedChunk((b - 63) % 32, shift);
  }

  /** A shifted chunk and everything below it fit in 64 bits, whatever is cut off at the top. */
  lemma ShiftedChunk(chunk: nat, shift: nat)
    requires chunk < 32 && shift <= 60
    ensures Shl(chunk, shift) % TWO64 <= 31 * Pow2(shift)
    ensures Pow2(shift) + Shl(chunk, shift) % TWO64 <= TWO64
  {
    Pow2At60();
    if shift < 60 {
      Pow2Monotone(shift, 59);
      assert Pow2(60) == 2 * Pow2(59);
      hide Pow2;
      ShlBound(chunk, shift);
      hide Shl;
      KeepsSmall(Shl(chunk, shift));
    } else {
      TopChunk(chunk);
    }
  }

  lemma ShlBound(chunk: nat, shift: nat)
    requires chunk < 32
    ensures Shl(chunk, shift) <= 31 * Pow2(shift)
  {
    hide Pow2;
    var p := Pow2(shift);
    assert 31 * p - chunk * p == (31 - chunk) * p;
  }

  lemma KeepsSmall(x: nat)
    requires x < TWO64
    ensures x % TWO64 == x
  {
  }

  /** At the last shift only four of the five bits survive. */
  lemma TopChunk(chunk: nat)
    requires chunk < 32
    ensures (chunk * 0x1000_0000_0000_0000) % TWO64 == chunk % 16 * 0x1000_0000_0000_0000
  {
    var x := chunk * 0x1000_0000_0000_0000;
    if chunk < 16 {
      KeepsSmall(x);
    } else {
      KeepsSmall(x - TWO64);
      assert x % TWO64 == (x - TWO64) % TWO64;
    }
  }

  // ----- the encoder

  /** The zigzag form of a delta: even for non-negative, odd for negative. */
  function Zigzag(d: int): nat {
    if d < 0 then -2 * d - 1 else 2 * d
  }

  /** Five-bit chunks, lowest first; all but the last carry the continuation bit. */
  function EncodeNat(z: nat): seq<Byte> {
    if z < 32 then [z + 63] else [z % 32 + 95] + EncodeNat(z / 32)
  }

  function EncodeFrom(points: seq<Coord>, lat: int, lng: int): seq<Byte> {
    if points == [] then []
    else
      EncodeNat(Zigzag(points[0].lat - lat)) + EncodeNat(Zigzag(points[0].lng - lng)) +
      EncodeFrom(points[1..], points[0].lat, points[0].lng)
  }

  function Encode(points: seq<Coord>): seq<Byte> {
    EncodeFrom(points, 0, 0)
  }

  /** Every position fits in an i64 and every delta from the previous one lies in [-2^62, 2^62). */
  predicate EncodableFrom(points: seq<Coord>, lat: int, lng: int) {
    points != [] ==>
      && -0x8000_0000_0000_0000 <= points[0].lat < 0x8000_0000_0000_0000
      && -0x8000_0000_0000_0000 <= points[0].lng < 0x8000_0000_0000_0000
      && -0x4000_0000_0000_0000 <= points[0].lat - lat < 0x4000_0000_0000_0000
      && -0x4000_0000_0000_0000 <= points[0].lng - lng < 0x4000_0000_0000_0000
      && EncodableFrom(points[1..], points[0].lat, points[0].lng)
  }

  predicate Encodable(points: seq<Coord>) {
    EncodableFrom(points, 0, 0)
  }

  // ----- decoding undoes encoding

  /** Shifting a number is shifting its lowest chunk and, one chunk further, the rest. */
  lemma ShlSplits(z: nat, shift: nat)
    ensures Shl(z, shift) == Shl(z % 32, shift) + Shl(z / 32, shift + 5)
  {
    Pow2Step(shift);
    hide Pow2;
    var q, r, p := z / 32, z % 32, Pow2(shift);
    assert z == 32 * q + r;
    assert (32 * q + r) * p == 32 * q * p + r * p;
    assert q * (32 * p) == 32 * q * p;
  }

  lemma ShlAtLeast(x: nat, shift: nat)
    requires x >= 1
    ensures Shl(x, shift) >= Pow2(shift)
  {
    hide Pow2;
    var p := Pow2(shift);
    assert x * p - p == (x - 1) * p;
  }

  /** Beyond the last shift there is no room below 2^63. */
  lemma NoRoomPast60(x: nat, shift: nat)
    requires x >= 1 && shift >= 60
    ensures Shl(x, shift + 5) >= TWO63
  {
    Pow2At60();
    Pow2Step(60);
    Pow2Monotone(65, shift + 5);
    hide Pow2;
    ShlAtLeast(x, shift + 5);
  }

  /** The first byte of an encoded number carries its lowest chunk, and says whether more follow. */
  lemma FirstByte(z: nat)
    ensures var b := EncodeNat(z)[0]; b == z % 32 + (if z < 32 then 63 else 95) && (b - 63) % 32 == z % 32
  {
  }

  /** Accumulating the first byte of `z` adds its lowest chunk, shifted. */
  lemma AccumulatesChunk(z: nat, result: nat, shift: nat)
    requires shift <= 60 && result < Pow2(shift) && Shl(z % 32, shift) < TWO64
    ensures Accumulate(result, EncodeNat(z)[0], shift) == result + Shl(z % 32, shift) < Pow2(shift + 5)
  {
    FirstByte(z);
    var b := EncodeNat(z)[0];
    hide EncodeNat, Pow2, Shl, Accumulate;
    AccumulateIsSum(result, b, shift);
    AccumulateFits(result, b, shift);
    KeepsSmall(Shl(z % 32, shift));
  }

  lemma RestOfBytes(bytes: seq<Byte>, i: nat, z: nat)
    requires z >= 32 && i + |EncodeNat(z)| <= |bytes| && bytes[i..i + |EncodeNat(z)|] == EncodeNat(z)
    ensures |EncodeNat(z)| == 1 + |EncodeNat(z / 32)|
    ensures bytes[i + 1..i + 1 + |EncodeNat(z / 32)|] == EncodeNat(z / 32)
  {
    assert bytes[i + 1..i + |EncodeNat(z)|] == EncodeNat(z)[1..];
  }

  lemma ComponentUnfolds(bytes: seq<Byte>, i: nat, result: nat, shift: nat)
    requires i < |bytes| && 63 <= bytes[i] <= 126 && shift <= 60
    ensures Component(bytes, i, result, shift) ==
            var acc := Accumulate(result, bytes[i], shift);
            if bytes[i] < 95 then Some(Piece(UnZigzag(acc), i + 1)) else Component(bytes, i + 1, acc, shift + 5)
  {
    hide Accumulate, UnZigzag;
  }

  /** Reading the first byte of `z`: done with all of `z` if it was the last, else with its lowest chunk. */
  lemma ReadsFirst(bytes: seq<Byte>, i: nat, z: nat, result: nat, shift: nat)
    requires i + |EncodeNat(z)| <= |bytes| && bytes[i..i + |EncodeNat(z)|] == EncodeNat(z)
    requires shift <= 60 && result < Pow2(shift) && Shl(z % 32, shift) < TWO64
    ensures result + Shl(z % 32, shift) < Pow2(shift + 5)
    ensures Component(bytes, i, result, shift) ==
            if z < 32 then Some(Piece(UnZigzag(result + Shl(z, shift)), i + 1))
            else Component(bytes, i + 1, result + Shl(z % 32, shift), shift + 5)
  {
    assert bytes[i] == bytes[i..i + |EncodeNat(z)|][0] == EncodeNat(z)[0];
    FirstByte(z);
    AccumulatesChunk(z, result, shift);
    hide EncodeNat, Pow2, Shl, UnZigzag, Accumulate, Component;
    ComponentUnfolds(bytes, i, result, shift);
  }

  /** Reading back the chunks of `z` from the k-th chunk on adds `z` shifted there. */
  lemma {:induction false} ReadsBack(bytes: seq<Byte>, i: nat, z: nat, result: nat, k: nat)
    requires i + |EncodeNat(z)| <= |bytes| && bytes[i..i + |EncodeNat(z)|] == EncodeNat(z)
    requires k <= 12 && result < Pow2(5 * k) && result + Shl(z, 5 * k) < TWO63
    ensures Component(bytes, i, result, 5 * k) == Some(Piece(UnZigzag(result + Shl(z, 5 * k)), i + |EncodeNat(z)|))
    decreases z
  {
    assert z < 32 ==> |EncodeNat(z)| == 1;
    hide EncodeNat, Pow2, Shl, UnZigzag, Accumulate, Component;
    ShlSplits(z, 5 * k);
    ReadsFirst(bytes, i, z, result, 5 * k);
    if z >= 32 {
      if k == 12 {
        NoRoomPast60(z / 32, 60);
      }
      RestOfBytes(bytes, i, z);
      ReadsBack(bytes, i + 1, z / 32, result + Shl(z % 32, 5 * k), k + 1);
    }
  }

  lemma UnZigzagUndoes(d: int)
    requires -TWO62 <= d < TWO62
    ensures Zigzag(d) < TWO63 && UnZigzag(Zigzag(d)) == d
  {
  }

  lemma ComponentRoundTrip(bytes: seq<Byte>, i: nat, d: int)
    requires -TWO62 <= d < TWO62
    requires i + |EncodeNat(Zigzag(d))| <= |bytes|
    requires bytes[i..i + |EncodeNat(Zigzag(d))|] == EncodeNat(Zigzag(d))
    ensures Component(bytes, i, 0, 0) == Some(Piece(d, i + |EncodeNat(Zigzag(d))|))
  {
    UnZigzagUndoes(d);
    assert Pow2(0) == 1 && Shl(Zigzag(d), 0) == Zigzag(d);
    ReadsBack(bytes, i, Zigzag(d), 0, 0);
  }

  lemma EncodeNatNonEmpty(z: nat)
    ensures |EncodeNat(z)| >= 1
  {
  }

  lemma Parts(bytes: seq<Byte>, i: nat, a: seq<Byte>, b: seq<Byte>, rest: seq<Byte>)
    requires i <= |bytes| && bytes[i..] == a + b + rest
    ensures i + |a| + |b| <= |bytes|
    ensures bytes[i..i + |a|] == a && bytes[i + |a|..i + |a| + |b|] == b && bytes[i + |a| + |b|..] == rest
  {
    var tail := bytes[i..];
    assert bytes[i..i + |a|] == tail[..|a|];
    assert bytes[i + |a|..i + |a| + |b|] == tail[|a|..|a| + |b|];
    assert bytes[i + |a| + |b|..] == tail[|a| + |b|..];
  }

  lemma PositionRoundTrip(bytes: seq<Byte>, i: nat, p: Coord, lat: int, lng: int, rest: seq<Byte>)
    requires InI64(p.lat) && InI64(p.lng) && -TWO62 <= p.lat - lat < TWO62 && -TWO62 <= p.lng - lng < TWO62
    requires i <= |bytes| && bytes[i..] == EncodeNat(Zigzag(p.lat - lat)) + EncodeNat(Zigzag(p.lng - lng)) + rest
    ensures i < |bytes|
    ensures var n := NextPosition(bytes, i, lat, lng);
            n.Some? && n.value.coord == p && n.value.next <= |bytes| && bytes[n.value.next..] == rest
  {
    var a, b := EncodeNat(Zigzag(p.lat - lat)), EncodeNat(Zigzag(p.lng - lng));
    EncodeNatNonEmpty(Zigzag(p.lat - lat));
    hide EncodeNat, Zigzag, Component;
    Parts(bytes, i, a, b, rest);
    ComponentRoundTrip(bytes, i, p.lat - lat);
    ComponentRoundTrip(bytes, i + |a|, p.lng - lng);
  }

  lemma {:induction false} DecodesBack(bytes: seq<Byte>, i: nat, points: seq<Coord>, lat: int, lng: int)
    requires i <= |bytes| && bytes[i..] == EncodeFrom(points, lat, lng) && EncodableFrom(points, lat, lng)
    ensures DecodeFrom(bytes, i, lat, lng) == Some(points)
    decreases |points|
  {
    hide NextPosition, EncodeNat, Zigzag;
    if points != [] {
      var p := points[0];
      PositionRoundTrip(bytes, i, p, lat, lng, EncodeFrom(points[1..], p.lat, p.lng));
      DecodesBack(bytes, NextPosition(bytes, i, lat, lng).value.next, points[1..], p.lat, p.lng);
      assert points == [p] + points[1..];
    }
  }

  lemma PositionRange(bytes: seq<Byte>, i: nat, lat: int, lng: int)
    ensures var n := NextPosition(bytes, i, lat, lng);
            n.Some? ==>
              var p := n.value.coord;
              InI64(p.lat) && InI64(p.lng) && -TWO62 <= p.lat - lat < TWO62 && -TWO62 <= p.lng - lng < TWO62
  {
    assert Pow2(0) == 1;
    ComponentRange(bytes, i, 0, 0);
    if Component(bytes, i, 0, 0).Some? {
      ComponentRange(bytes, Component(bytes, i, 0, 0).value.next, 0, 0);
    }
  }

  /** Whatever bytes decode, the positions decoded from them are encodable. */
  lemma {:induction false} DecodedIsEncodable(bytes: seq<Byte>, i: nat, lat: int, lng: int)
    ensures var r := DecodeFrom(bytes, i, lat, lng); r.Some? ==> EncodableFrom(r.value, lat, lng)
    decreases |bytes| - i
  {
    hide NextPosition, OneComponent;
    var r, n := DecodeFrom(bytes, i, lat, lng), NextPosition(bytes, i, lat, lng);
    if i < |bytes| && r.Some? {
      PositionAdvances(bytes, i, lat, lng);
      PositionRange(bytes, i, lat, lng);
      DecodedIsEncodable(bytes, n.value.next, n.value.coord.lat, n.value.coord.lng);
      assert r.value[1..] == DecodeFrom(bytes, n.value.next, n.value.coord.lat, n.value.coord.lng).value;
    }
  }

  /** Decoding undoes the standard encoding exactly on the encodable positions. */
  lemma RoundTripIffEncodable(points: seq<Coord>)
    ensures Decode(Encode(points)) == Some(points) <==> Encodable(points)
  {
    if Encodable(points) {
      DecodesBack(Encode(points), 0, points, 0, 0);
    }
    DecodedIsEncodable(Encode(points), 0, 0, 0);
  }

  // ----- what is consumed

  function Terminators(bytes: seq<Byte>, i: nat): nat
    requires i <= |bytes|
    decreases |bytes| - i
  {
    if i == |bytes| then 0 else (if Terminates(bytes[i]) then 1 else 0) + Terminators(bytes, i + 1)
  }

  lemma {:induction false} OneTerminator(bytes: seq<Byte>, i: nat, j: nat, room: nat)
    requires OneComponent(bytes, i, j, room)
    ensures i < j <= |bytes| && Terminators(bytes, i) == 1 + Terminators(bytes, j) && Terminates(bytes[j - 1])
    ensures forall k :: i <= k < j ==> 63 <= bytes[k] <= 126
    decreases j - i
  {
    if i < j - 1 {
      assert Continues(bytes[i]);
      OneTerminator(bytes, i + 1, j, room);
    }
  }

  /**
   On any byte string decoding either errs or consumes every byte in complete
   pairs: all bytes are in range, the last one ends a component, and there are two
   components per decoded position.
   */
  lemma {:induction false} DecodeConsumesPairs(bytes: seq<Byte>, i: nat, lat: int, lng: int)
    requires i <= |bytes|
    ensures var r := DecodeFrom(bytes, i, lat, lng);
            r.Some? ==>
              && Terminators(bytes, i) == 2 * |r.value|
              && (forall k :: i <= k < |bytes| ==> 63 <= bytes[k] <= 126)
              && (i < |bytes| ==> Terminates(bytes[|bytes| - 1]))
    decreases |bytes| - i
  {
    hide NextPosition, OneComponent, Terminates;
    var r, n := DecodeFrom(bytes, i, lat, lng), NextPosition(bytes, i, lat, lng);
    if i < |bytes| && r.Some? {
      PositionAdvances(bytes, i, lat, lng);
      var mid :| OneComponent(bytes, i, mid, 13) && OneComponent(bytes, mid, n.value.next, 13);
      OneTerminator(bytes, i, mid, 13);
      OneTerminator(bytes, mid, n.value.next, 13);
      DecodeConsumesPairs(bytes, n.value.next, n.value.coord.lat, n.value.coord.lng);
    }
  }

  // ----- the loops

  /** The inner loop of the decoder. */
  method ReadComponent(bytes: seq<Byte>, start: nat) returns (piece: Option<Piece>)
    ensures piece == Component(bytes, start, 0, 0)
  {
    var index, result, shift := start, 0, 0;
    while true
      invariant Component(bytes, index, result, shift) == Component(bytes, start, 0, 0)
      decreases |bytes| - index
    {
      if index >= |bytes| {
        return None;
      }
      var byte := bytes[index];
      if !(63 <= byte <= 126) || shift > 60 {
        return None;
      }
      index := index + 1;
      result := Accumulate(result, byte, shift);
      if byte - 63 < 32 {
        return Some(Piece(UnZigzag(result), index));
      }
      shift := shift + 5;
    }
  }

  /** One turn of the outer loop. */
  method ReadPosition(bytes: seq<Byte>, index: nat, lat: int, lng: int) returns (position: Option<Position>)
    ensures position == NextPosition(bytes, index, lat, lng)
  {
    var dLat := ReadComponent(bytes, index);
    if dLat.None? || !InI64(lat + dLat.value.value) {
      return None;
    }
    var dLng := ReadComponent(bytes, dLat.value.next);
    if dLng.None? || !InI64(lng + dLng.value.value) {
      return None;
    }
    return Some(Position(Coord(lng + dLng.value.value, lat + dLat.value.value), dLng.value.next));
  }

  /** The outer loop of the decoder; it never reads past the end and always terminates. */
  method DecodePolyline6(bytes: seq<Byte>) returns (coordinates: Option<seq<Coord>>)
    ensures coordinates == Decode(bytes)
    ensures coordinates.Some? ==> Encodable(coordinates.value) && Terminators(bytes, 0) == 2 * |coordinates.value|
  {
    DecodedIsEncodable(bytes, 0, 0, 0);
    DecodeConsumesPairs(bytes, 0, 0, 0);
    hide EncodableFrom, Terminators, NextPosition, OneComponent, DecodeFrom, Prepend;
    var index, lat, lng, coords := 0, 0, 0, [];
    PrependNothing(DecodeFrom(bytes, 0, 0, 0));
    while index < |bytes|
      invariant Decode(bytes) == Prepend(coords, DecodeFrom(bytes, index, lat, lng))
      decreases |bytes| - index
    {
      DecodeUnfolds(bytes, index, lat, lng);
      var position := ReadPosition(bytes, index, lat, lng);
      if position.None? {
        PrependToNone(coords);
        return None;
      }
      var Position(coord, next) := position.value;
      PrependTwice(coords, [coord], DecodeFrom(bytes, next, coord.lat, coord.lng));
      lat, lng, index := coord.lat, coord.lng, next;
      coords := coords + [coord];
    }
    DecodeUnfolds(bytes, index, lat, lng);
    PrependToNothing(coords);
    return Some(coords);
  }

  lemma DecodeUnfolds(bytes: seq<Byte>, index: nat, lat: int, lng: int)
    ensures index >= |bytes| ==> DecodeFrom(bytes, index, lat, lng) == Some([])
    ensures var p := NextPosition(bytes, index, lat, lng);
            index < |bytes| ==>
              && (p.None? ==> DecodeFrom(bytes, index, lat, lng) == None)
              && (p.Some? ==>
                    && index < p.value.next
                    && DecodeFrom(bytes, index, lat, lng)
                       == Prepend([p.value.coord], DecodeFrom(bytes, p.value.next, p.value.coord.lat, p.value.coord.lng)))
  {
    hide NextPosition, OneComponent, Prepend;
    PositionAdvances(bytes, index, lat, lng);
  }

  lemma PrependToNone(head: seq<Coord>)
    ensures Prepend(head, None) == None
  {
  }

  lemma PrependToNothing(head: seq<Coord>)
    ensures Prepend(head, Some([])) == Some(head)
  {
    assert head + [] == head;
  }

  lemma PrependNothing(tail: Option<seq<Coord>>)
    ensures Prepend([], tail) == tail
  {
    assert tail.Some? ==> [] + tail.value == tail.value;
  }

  lemma PrependTwice(a: seq<Coord>, b: seq<Coord>, tail: Option<seq<Coord>>)
    ensures Prepend(a, Prepend(b, tail)) == Prepend(a + b, tail)
  {
    assert tail.Some? ==> a + (b + tail.value) == a + b + tail.value;
  }
}
