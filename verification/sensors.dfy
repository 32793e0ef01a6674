/**
 * The sensor cache `MicroBitMore._sensors`: the last value received for each
 * field, and how one telemetry frame updates it. Only the fields of the shape
 * a frame carries change; everything else keeps its previous value.
 */
module Sensors {
  import opened Bytes
  import opened Wrappers
  import opened Telemetry

  /** Logical pins whose readings shape 0x01 carries, in frame order (`analogIn`). */
  const ANALOG_IN: seq<int> := [0, 1, 2]

  /** Logical pin of each bit of the packed digital byte, bit 0 first (`gpio`). */
  const GPIO: seq<int> := [0, 1, 2, 8, 13, 14, 15, 16]

  const SLOT_COUNT := 4
  const MATRIX_ROWS := 5

  /** Raw accelerometer units per g. */
  const G := 1024

  /**
   * The cache. Magnetic strength and acceleration have no initial value in the
   * source (reading them before the first 0x03 frame gives `undefined`), hence
   * the options.
   */
  datatype Sensors = Sensors(
    buttonA: Byte,
    buttonB: Byte,
    ledMatrix: seq<Byte>,
    lightLevel: Byte,
    compassHeading: nat,
    analogValue: map<int, int>,
    digitalValue: map<int, int>,
    slot: seq<int>,
    magneticStrength: Option<int>,
    accelerationX: Option<int>,
    accelerationY: Option<int>,
    accelerationZ: Option<int>)

  /** The shape the constructor gives the cache, kept by every update. */
  predicate Valid(s: Sensors)
  {
    && |s.ledMatrix| == MATRIX_ROWS
    && |s.slot| == SLOT_COUNT
    && s.analogValue.Keys == Pins(ANALOG_IN)
    && s.digitalValue.Keys == Pins(GPIO)
  }

  /** The pins a table names. */
  function Pins(table: seq<int>): (r: set<int>)
    ensures forall i :: 0 <= i < |table| ==> table[i] in r
    ensures forall k :: k in r ==> k in table
  {
    set k | k in table
  }

  lemma GpioIncreasing()
    ensures forall a, b :: 0 <= a < b < |GPIO| ==> GPIO[a] < GPIO[b]
  {
  }

  /** The cache as the constructor leaves it. */
  function Initial(): (s: Sensors)
    ensures Valid(s)
    ensures s.slot == [0, 0, 0, 0] && s.buttonA == 0 && s.buttonB == 0
    ensures forall k :: k in s.digitalValue ==> s.digitalValue[k] == 0
    ensures s.ledMatrix == [0, 0, 0, 0, 0] && s.lightLevel == 0 && s.compassHeading == 0
    ensures forall k :: k in s.analogValue ==> s.analogValue[k] == 0
    ensures s.magneticStrength.None? && s.accelerationX.None? && s.accelerationY.None? && s.accelerationZ.None?
  {
    Sensors(
      0, 0, [0, 0, 0, 0, 0], 0, 0,
      map k | k in Pins(ANALOG_IN) :: 0,
      map k | k in Pins(GPIO) :: 0,
      [0, 0, 0, 0],
      None, None, None, None)
  }

  // ---------------------------------------------------------------------
  // Which fields each shape owns.

  predicate SameEnvironment(a: Sensors, b: Sensors)
  {
    a.analogValue == b.analogValue && a.compassHeading == b.compassHeading && a.lightLevel == b.lightLevel
  }

  predicate SameSlots(a: Sensors, b: Sensors)
  {
    a.slot == b.slot && a.digitalValue == b.digitalValue
  }

  predicate SameInertial(a: Sensors, b: Sensors)
  {
    && a.magneticStrength == b.magneticStrength
    && a.accelerationX == b.accelerationX
    && a.accelerationY == b.accelerationY
    && a.accelerationZ == b.accelerationZ
  }

  // ---------------------------------------------------------------------
  // Digital pins.

  /**
   * The loop of `_onMessage` from index `i` on: pin `GPIO[j]` gets bit `j`
   * of the packed byte, `(bits >> j) & 1`.
   */
  function DemuxPins(bits: Byte, i: nat, dv: map<int, int>): (r: map<int, int>)
    requires i <= |GPIO| && dv.Keys == Pins(GPIO)
    ensures r.Keys == dv.Keys
    ensures forall j :: i <= j < |GPIO| ==> r[GPIO[j]] == Bit(bits, j)
    ensures forall j :: 0 <= j < i ==> r[GPIO[j]] == dv[GPIO[j]]
    decreases |GPIO| - i
  {
    if i == |GPIO| then dv
    else
      GpioIncreasing();
      var dv1 := dv[GPIO[i] := Bit(bits, i)];
      assert dv1.Keys == dv.Keys;
      assert forall j :: 0 <= j < i ==> dv1[GPIO[j]] == dv[GPIO[j]];
      DemuxPins(bits, i + 1, dv1)
  }

  /** The inverse of the demultiplexing: pin levels folded back into one byte, `GPIO[i]` as bit `i`. */
  function PackPins(dv: map<int, int>, i: nat): int
    requires i <= |GPIO|
    requires forall k :: k in GPIO ==> k in dv
    decreases |GPIO| - i
  {
    if i == |GPIO| then 0 else dv[GPIO[i]] + 2 * PackPins(dv, i + 1)
  }

  lemma {:induction false} PackBitsFrom(bits: Byte, dv: map<int, int>, i: nat)
    requires i <= |GPIO|
    requires forall k :: k in GPIO ==> k in dv
    requires forall j :: 0 <= j < |GPIO| ==> dv[GPIO[j]] == Bit(bits, j)
    ensures PackPins(dv, i) == bits / Pow2(i)
    decreases |GPIO| - i
  {
    if i == |GPIO| {
      assert Pow2(8) == 256 by {
        assert Pow2(4) == 16;
      }
      DivUnique(bits, Pow2(8), 0, bits);
    } else {
      PackBitsFrom(bits, dv, i + 1);
      BitDiv(bits, i);
      DivDiv(bits, Pow2(i), 2);
      assert Pow2(i + 1) == Pow2(i) * 2;
      var y := bits / Pow2(i);
      assert PackPins(dv, i) == y % 2 + 2 * (y / 2);
    }
  }

  /** Packing the demultiplexed pins gives back the byte the frame carried. */
  lemma PackDemux(bits: Byte, dv: map<int, int>)
    requires dv.Keys == Pins(GPIO)
    ensures PackPins(DemuxPins(bits, 0, dv), 0) == bits
  {
    PackBitsFrom(bits, DemuxPins(bits, 0, dv), 0);
  }

  // ---------------------------------------------------------------------
  // Applying one frame.

  /** Merges a decoded report into the cache: the buttons always, then only the fields of its shape. */
  function Apply(s: Sensors, rep: Report): (r: Sensors)
    requires Valid(s)
    ensures Valid(r)
  {
    var s1 := s.(buttonA := rep.buttonA, buttonB := rep.buttonB);
    match rep.body
    case Environment(a0, a1, a2, h, l) =>
      s1.(analogValue := s.analogValue[ANALOG_IN[0] := a0][ANALOG_IN[1] := a1][ANALOG_IN[2] := a2],
          compassHeading := h,
          lightLevel := l)
    case Slots(s0, sl1, s2, s3, pins) =>
      s1.(slot := [s0, sl1, s2, s3], digitalValue := DemuxPins(pins, 0, s.digitalValue))
    case Inertial(m, x, y, z) =>
      s1.(magneticStrength := Some(m), accelerationX := Some(x), accelerationY := Some(y), accelerationZ := Some(z))
    case Unrecognised(_) =>
      s1
  }

  /** The cache after `_onMessage` has parsed `data`. */
  function OnMessage(s: Sensors, data: seq<Byte>): (r: Sensors)
    requires Valid(s) && |data| >= MIN_FRAME
    ensures Valid(r)
    ensures r.buttonA == data[4] && r.buttonB == data[5]
    ensures r.ledMatrix == s.ledMatrix
    ensures data[19] == 0x01 ==>
      && r.analogValue[ANALOG_IN[0]] == U16(data[10], data[11])
      && r.analogValue[ANALOG_IN[1]] == U16(data[12], data[13])
      && r.analogValue[ANALOG_IN[2]] == U16(data[14], data[15])
      && r.compassHeading == U16(data[16], data[17])
      && r.lightLevel == data[18]
      && SameSlots(r, s) && SameInertial(r, s)
    ensures data[19] == 0x02 ==>
      && r.slot == [I16(data[10], data[11]), I16(data[12], data[13]), I16(data[14], data[15]), I16(data[16], data[17])]
      && (forall i :: 0 <= i < |GPIO| ==> r.digitalValue[GPIO[i]] == Bit(data[18], i))
      && SameEnvironment(r, s) && SameInertial(r, s)
    ensures data[19] == 0x03 ==>
      && r.magneticStrength == Some(U16(data[10], data[11]))
      && r.accelerationX == Some(I16(data[12], data[13]))
      && r.accelerationY == Some(I16(data[14], data[15]))
      && r.accelerationZ == Some(I16(data[16], data[17]))
      && SameEnvironment(r, s) && SameSlots(r, s)
    ensures data[19] !in {0x01, 0x02, 0x03} ==> r == s.(buttonA := data[4], buttonB := data[5])
  {
    Apply(s, Decode(data))
  }

  /** Frames of different shapes do not disturb each other: in either order, each keeps what the other set. */
  lemma MergeEnvironmentThenSlots(s: Sensors, env: seq<Byte>, slots: seq<Byte>)
    requires Valid(s) && |env| >= MIN_FRAME && |slots| >= MIN_FRAME
    requires env[19] == 0x01 && slots[19] == 0x02
    ensures SameEnvironment(OnMessage(OnMessage(s, slots), env), OnMessage(s, env))
    ensures SameSlots(OnMessage(OnMessage(s, env), slots), OnMessage(s, slots))
    ensures SameEnvironment(OnMessage(OnMessage(s, env), slots), OnMessage(s, env))
    ensures SameSlots(OnMessage(OnMessage(s, slots), env), OnMessage(s, slots))
  {
  }

  /** Every digital pin reads 0 or 1. */
  ghost predicate DigitalBits(s: Sensors)
  {
    forall k :: k in s.digitalValue ==> s.digitalValue[k] == 0 || s.digitalValue[k] == 1
  }

  /** The constructor's pins are 0 and every frame keeps every digital pin at 0 or 1. */
  lemma OnMessageKeepsDigitalBits(s: Sensors, data: seq<Byte>)
    requires Valid(s) && DigitalBits(s) && |data| >= MIN_FRAME
    ensures DigitalBits(Initial())
    ensures DigitalBits(OnMessage(s, data))
  {
    var r := OnMessage(s, data);
    if data[19] == 0x02 {
      forall k | k in r.digitalValue
        ensures r.digitalValue[k] == 0 || r.digitalValue[k] == 1
      {
        var i :| 0 <= i < |GPIO| && GPIO[i] == k;
        assert Bit(data[18], i) < 2;
      }
    }
  }

  // ---------------------------------------------------------------------
  // Reads.

  /** A JavaScript number as the getters produce it: a finite value or NaN. */
  datatype Number = Num(value: real) | NaN

  /**
   * The acceleration getters: raw units converted to milli-g, `1000 * raw / G`.
   * Before any reading the raw value is `undefined` and the arithmetic gives NaN.
   * For an int16 reading the double division is exact, so a real models it.
   */
  function MilliG(raw: Option<int>): (r: Number)
    ensures r.NaN? <==> raw.None?
    ensures r.Num? ==> r.value * (G as real) == 1000.0 * (raw.value as real)
  {
    match raw
    case None => NaN
    case Some(v) => Num(1000.0 * (v as real) / (G as real))
  }

  lemma MilliGExamples()
    ensures MilliG(Some(1024)) == Num(1000.0)
    ensures MilliG(Some(0)) == Num(0.0)
    ensures MilliG(Some(-512)) == Num(-500.0)
    ensures MilliG(None) == NaN
  {
  }
}
