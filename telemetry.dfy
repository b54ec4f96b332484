/**
 * Decoding one telemetry datagram: the fixed-offset little-endian reads of
 * the listener's `try` block, in the order it makes them, and an encoder
 * that writes a reading back at the same offsets.
 */
module Telemetry {
  import opened Wrappers
  import opened Wire
  import opened Floats

  /** Datagrams shorter than this are dropped before any field is read. */
  const MinDatagram: nat := 228

  /** One past the furthest byte read (steer, '<b' at 308). */
  const FrameEnd: nat := 309

  /** The fields of one datagram, as `struct.unpack_from` returns them. */
  datatype Reading = Reading(
    rpm: Float32,        // '<f' at 16
    gear: int,           // '<B' at 307
    steer: int,          // '<b' at 308
    throttle: int,       // '<B' at 303 (acelerador)
    brake: int,          // '<B' at 304 (freio)
    speed: Float32,      // '<f' at 244 (velocidade, metres per second)
    boost: Float32,      // '<f' at 272
    bestLap: Float32,    // '<f' at 284
    racePosition: int,   // '<B' at 302
    lapNumber: int,      // '<h' at 300
    fuel: Float32,       // '<f' at 276
    isRaceOn: int,       // '<i' at 0
    carId: int)          // '<i' at 212

  predicate InRange(f: Format, v: int) {
    Low(f) <= v < High(f)
  }

  /** Every integer field lies in the range of its format. */
  predicate WellFormed(r: Reading) {
    && InRange(U8, r.gear) && InRange(I8, r.steer)
    && InRange(U8, r.throttle) && InRange(U8, r.brake)
    && InRange(U8, r.racePosition) && InRange(I16, r.lapNumber)
    && InRange(I32, r.isRaceOn) && InRange(I32, r.carId)
  }

  /**
   * The listener's reads, in its order; the first that runs past the end of
   * the datagram raises struct.error and abandons the rest.
   */
  function Decode(data: seq<Byte>): (r: Decoded<Reading>)
    ensures r.Ok? <==> |data| >= FrameEnd
    ensures r.Ok? ==> WellFormed(r.value)
  {
    var rpm :- UnpackFrom(F32, data, 16);
    var gear :- UnpackFrom(U8, data, 307);
    var steer :- UnpackFrom(I8, data, 308);
    var throttle :- UnpackFrom(U8, data, 303);
    var brake :- UnpackFrom(U8, data, 304);
    var speed :- UnpackFrom(F32, data, 244);
    var boost :- UnpackFrom(F32, data, 272);
    var bestLap :- UnpackFrom(F32, data, 284);
    var racePosition :- UnpackFrom(U8, data, 302);
    var lapNumber :- UnpackFrom(I16, data, 300);
    var fuel :- UnpackFrom(F32, data, 276);
    var isRaceOn :- UnpackFrom(I32, data, 0);
    var carId :- UnpackFrom(I32, data, 212);
    Ok(Reading(Float32(rpm), gear, steer, throttle, brake, Float32(speed),
                    Float32(boost), Float32(bestLap), racePosition, lapNumber,
                    Float32(fuel), isRaceOn, carId))
  }

  /** The byte a field of value v in format f, placed at offset, puts at index i, if any. */
  function Field(f: Format, offset: nat, v: int, i: int): (b: Option<Byte>)
    requires InRange(f, v)
    ensures b.Some? <==> offset <= i < offset + Size(f)
  {
    if offset <= i < offset + Size(f) then Some(Pack(f, v)[i - offset]) else None
  }

  /** The byte the documented layout puts at index i, if a field covers i. */
  function LayoutByte(r: Reading, i: int): Option<Byte>
    requires WellFormed(r)
  {
    if 0 <= i < 4 then Field(I32, 0, r.isRaceOn, i)
    else if 16 <= i < 20 then Field(F32, 16, r.rpm.bits, i)
    else if 212 <= i < 216 then Field(I32, 212, r.carId, i)
    else if 244 <= i < 248 then Field(F32, 244, r.speed.bits, i)
    else if 272 <= i < 276 then Field(F32, 272, r.boost.bits, i)
    else if 276 <= i < 280 then Field(F32, 276, r.fuel.bits, i)
    else if 284 <= i < 288 then Field(F32, 284, r.bestLap.bits, i)
    else if 300 <= i < 302 then Field(I16, 300, r.lapNumber, i)
    else if i == 302 then Field(U8, 302, r.racePosition, i)
    else if i == 303 then Field(U8, 303, r.throttle, i)
    else if i == 304 then Field(U8, 304, r.brake, i)
    else if i == 307 then Field(U8, 307, r.gear, i)
    else if i == 308 then Field(I8, 308, r.steer, i)
    else None
  }

  /** base with every field of r written at its documented offset. */
  function Encode(base: seq<Byte>, r: Reading): (data: seq<Byte>)
    requires |base| >= FrameEnd && WellFormed(r)
    ensures |data| == |base|
  {
    seq(|base|, i requires 0 <= i < |base| =>
      var b := LayoutByte(r, i); if b.Some? then b.value else base[i])
  }

  /** A field whose bytes the layout writes reads back as its value. */
  lemma EncodedField(base: seq<Byte>, r: Reading, f: Format, offset: nat, v: int)
    requires |base| >= FrameEnd && WellFormed(r) && InRange(f, v)
    requires offset + Size(f) <= FrameEnd
    requires forall i | offset <= i < offset + Size(f) :: LayoutByte(r, i) == Field(f, offset, v, i)
    ensures UnpackFrom(f, Encode(base, r), offset) == Ok(v)
  {
    var data := Encode(base, r);
    assert data[offset..offset + Size(f)] == Pack(f, v) by {
      forall k | 0 <= k < Size(f)
        ensures data[offset..offset + Size(f)][k] == Pack(f, v)[k]
      {
        assert LayoutByte(r, offset + k) == Field(f, offset, v, offset + k);
      }
    }
    UnpackPack(f, data, offset, v);
  }

  /** Encoding a reading into any long-enough buffer and decoding it gives the reading back. */
  lemma DecodeEncode(base: seq<Byte>, r: Reading)
    requires |base| >= FrameEnd && WellFormed(r)
    ensures Decode(Encode(base, r)) == Ok(r)
  {
    EncodedField(base, r, F32, 16, r.rpm.bits);
    EncodedField(base, r, U8, 307, r.gear);
    EncodedField(base, r, I8, 308, r.steer);
    EncodedField(base, r, U8, 303, r.throttle);
    EncodedField(base, r, U8, 304, r.brake);
    EncodedField(base, r, F32, 244, r.speed.bits);
    EncodedField(base, r, F32, 272, r.boost.bits);
    EncodedField(base, r, F32, 284, r.bestLap.bits);
    EncodedField(base, r, U8, 302, r.racePosition);
    EncodedField(base, r, I16, 300, r.lapNumber);
    EncodedField(base, r, F32, 276, r.fuel.bits);
    EncodedField(base, r, I32, 0, r.isRaceOn);
    EncodedField(base, r, I32, 212, r.carId);
  }

  /** Writing a decoded reading back over its datagram changes no byte. */
  lemma EncodeDecode(data: seq<Byte>)
    requires |data| >= FrameEnd
    ensures Decode(data).Ok? && Encode(data, Decode(data).value) == data
  {
    var r := Decode(data).value;
    PackUnpack(F32, data, 16);
    PackUnpack(U8, data, 307);
    PackUnpack(I8, data, 308);
    PackUnpack(U8, data, 303);
    PackUnpack(U8, data, 304);
    PackUnpack(F32, data, 244);
    PackUnpack(F32, data, 272);
    PackUnpack(F32, data, 284);
    PackUnpack(U8, data, 302);
    PackUnpack(I16, data, 300);
    PackUnpack(F32, data, 276);
    PackUnpack(I32, data, 0);
    PackUnpack(I32, data, 212);
    var e := Encode(data, r);
    forall i | 0 <= i < |data|
      ensures e[i] == data[i]
    {
    }
  }
}
