/**
 * The inbound half of the protocol: the notification frame `_onMessage`
 * receives. Bytes 4 and 5 carry the A and B buttons; byte 19 selects which of
 * three record shapes bytes 10..18 hold, each field little-endian.
 */
module Telemetry {
  import opened Bytes

  /** Offset of the shape discriminator, and the shortest frame the decoder reads. */
  const KIND_OFFSET := 19
  const MIN_FRAME := 20

  const KIND_ENVIRONMENT: Byte := 0x01
  const KIND_SLOTS: Byte := 0x02
  const KIND_INERTIAL: Byte := 0x03

  /** The record a frame carries in bytes 10..18, selected by byte 19. */
  datatype Telemetry =
    | Environment(analog0: nat, analog1: nat, analog2: nat, heading: nat, light: Byte)
    | Slots(slot0: int, slot1: int, slot2: int, slot3: int, pins: Byte)
    | Inertial(magnetic: nat, accelX: int, accelY: int, accelZ: int)
    | Unrecognised(kind: Byte)

  /** One decoded notification: the two buttons and the record. */
  datatype Report = Report(buttonA: Byte, buttonB: Byte, body: Telemetry)

  predicate IsU16(v: int) { 0 <= v < 0x1_0000 }
  predicate IsI16(v: int) { -0x8000 <= v < 0x8000 }

  /** The values a frame can carry: 16-bit fields in range, an unrecognised kind really unknown. */
  predicate WellFormed(r: Report)
  {
    match r.body
    case Environment(a0, a1, a2, h, _) => IsU16(a0) && IsU16(a1) && IsU16(a2) && IsU16(h)
    case Slots(s0, s1, s2, s3, _) => IsI16(s0) && IsI16(s1) && IsI16(s2) && IsI16(s3)
    case Inertial(m, x, y, z) => IsU16(m) && IsI16(x) && IsI16(y) && IsI16(z)
    case Unrecognised(k) => k != KIND_ENVIRONMENT && k != KIND_SLOTS && k != KIND_INERTIAL
  }

  function U16At(data: seq<Byte>, k: nat): nat
    requires k + 1 < |data|
  {
    U16(data[k], data[k + 1])
  }

  function I16At(data: seq<Byte>, k: nat): int
    requires k + 1 < |data|
  {
    I16(data[k], data[k + 1])
  }

  /** The parse `_onMessage` performs; the source reads bytes 4..19 without a length check. */
  function Decode(data: seq<Byte>): (r: Report)
    requires |data| >= MIN_FRAME
    ensures r.buttonA == data[4] && r.buttonB == data[5]
    ensures r.body.Environment? <==> data[KIND_OFFSET] == KIND_ENVIRONMENT
    ensures r.body.Slots? <==> data[KIND_OFFSET] == KIND_SLOTS
    ensures r.body.Inertial? <==> data[KIND_OFFSET] == KIND_INERTIAL
    ensures r.body.Unrecognised? ==> r.body.kind == data[KIND_OFFSET]
    ensures WellFormed(r)
  {
    var kind := data[KIND_OFFSET];
    var body :=
      if kind == KIND_ENVIRONMENT then
        Environment(U16At(data, 10), U16At(data, 12), U16At(data, 14), U16At(data, 16), data[18])
      else if kind == KIND_SLOTS then
        Slots(I16At(data, 10), I16At(data, 12), I16At(data, 14), I16At(data, 16), data[18])
      else if kind == KIND_INERTIAL then
        Inertial(U16At(data, 10), I16At(data, 12), I16At(data, 14), I16At(data, 16))
      else
        Unrecognised(kind);
    Report(data[4], data[5], body)
  }

  /** A 16-bit field, low byte first (two's complement for negative values). */
  function Le16(v: int): seq<Byte>
  {
    [LowByte(v), HighByte(v)]
  }

  /** The frame a device would send for a report; bytes the decoder ignores are zero. */
  function Encode(r: Report): (data: seq<Byte>)
    requires WellFormed(r)
    ensures |data| == MIN_FRAME
  {
    var fields: seq<Byte> :=
      match r.body
      case Environment(a0, a1, a2, h, l) => Le16(a0) + Le16(a1) + Le16(a2) + Le16(h) + [l]
      case Slots(s0, s1, s2, s3, p) => Le16(s0) + Le16(s1) + Le16(s2) + Le16(s3) + [p]
      case Inertial(m, x, y, z) => Le16(m) + Le16(x) + Le16(y) + Le16(z) + [0]
      case Unrecognised(_) => [0, 0, 0, 0, 0, 0, 0, 0, 0];
    var kind: Byte :=
      match r.body
      case Environment(_, _, _, _, _) => KIND_ENVIRONMENT
      case Slots(_, _, _, _, _) => KIND_SLOTS
      case Inertial(_, _, _, _) => KIND_INERTIAL
      case Unrecognised(k) => k;
    [0, 0, 0, 0, r.buttonA, r.buttonB, 0, 0, 0, 0] + fields + [kind]
  }

  /** Decoding round trip: every well-formed report survives encoding and decoding. */
  lemma DecodeEncode(r: Report)
    requires WellFormed(r)
    ensures Decode(Encode(r)) == r
  {
    var data := Encode(r);
    match r.body
    case Environment(a0, a1, a2, h, l) =>
      U16RoundTrip(a0);
      U16RoundTrip(a1);
      U16RoundTrip(a2);
      U16RoundTrip(h);
    case Slots(s0, s1, s2, s3, p) =>
      I16RoundTrip(s0);
      I16RoundTrip(s1);
      I16RoundTrip(s2);
      I16RoundTrip(s3);
    case Inertial(m, x, y, z) =>
      U16RoundTrip(m);
      I16RoundTrip(x);
      I16RoundTrip(y);
      I16RoundTrip(z);
    case Unrecognised(k) =>
  }

  /** The decoder looks only at bytes 4, 5 and 10..19: frames that agree there decode alike. */
  lemma DecodeReadsOnlyFields(d1: seq<Byte>, d2: seq<Byte>)
    requires |d1| >= MIN_FRAME && |d2| >= MIN_FRAME
    requires d1[4] == d2[4] && d1[5] == d2[5]
    requires forall k :: 10 <= k < 20 ==> d1[k] == d2[k]
    ensures Decode(d1) == Decode(d2)
  {
    assert d1[10] == d2[10] && d1[11] == d2[11] && d1[12] == d2[12] && d1[13] == d2[13];
    assert d1[14] == d2[14] && d1[15] == d2[15] && d1[16] == d2[16] && d1[17] == d2[17];
    assert d1[18] == d2[18] && d1[19] == d2[19];
  }
}
