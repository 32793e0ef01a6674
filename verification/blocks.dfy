/**
 * `Scratch3Scratch2MaqueenBlocks`: the blocks built on the driver. Slot 3 of
 * the Maqueen packs four flags into one number (left LED, right LED, left and
 * right line sensors); the LED matrix is five 5-bit rows.
 */
module Blocks {
  import opened Bytes
  import opened Wrappers
  import opened Protocol
  import Sensors
  import Driver

  /** How long the display and matrix blocks wait before finishing. */
  const BLE_SEND_INTERVAL_MS := 100

  /** The display-text block shows at most this many code units. */
  const TEXT_LIMIT := 19

  /** Scroll delay per horizontal pixel of scrolling text. */
  const SCROLL_DELAY_MS := 120

  /** The slot carrying the four LED and line-sensor flags. */
  const FLAGS_SLOT := 3

  /** A block's effect on the driver and the time it keeps the script waiting. */
  datatype Paced = Paced(effect: Driver.Effect, delayMs: nat)

  // ---------------------------------------------------------------------
  // Buttons.

  /** The BTN menu: 'A', 'B', 'any', or anything else. */
  datatype ButtonChoice = ButtonA | ButtonB | AnyButton | OtherButton

  /** `isButtonPressed`; 'any' is the bitwise or of the two button bytes. */
  function IsButtonPressed(s: Sensors.Sensors, btn: ButtonChoice): (r: bool)
    ensures btn == ButtonA ==> (r <==> s.buttonA != 0)
    ensures btn == ButtonB ==> (r <==> s.buttonB != 0)
    ensures btn == AnyButton ==> (r <==> s.buttonA != 0 || s.buttonB != 0)
    ensures btn == OtherButton ==> !r
  {
    match btn
    case AnyButton => ((s.buttonA as bv8) | (s.buttonB as bv8)) != 0
    case ButtonA => s.buttonA != 0
    case ButtonB => s.buttonB != 0
    case OtherButton => false
  }

  // ---------------------------------------------------------------------
  // The LED matrix.

  /** A code unit JavaScript's `\s` matches. */
  predicate IsJsSpace(u: CodeUnit)
  {
    || u == 0x09 || u == 0x0A || u == 0x0B || u == 0x0C || u == 0x0D || u == 0x20
    || u == 0xA0 || u == 0x1680 || (0x2000 <= u <= 0x200A)
    || u == 0x2028 || u == 0x2029 || u == 0x202F || u == 0x205F || u == 0x3000 || u == 0xFEFF
  }

  /** `replace(/\s/g, '')`. */
  function StripSpaces(s: JsString): (r: JsString)
    ensures |r| <= |s|
    ensures forall i :: 0 <= i < |r| ==> !IsJsSpace(r[i])
    ensures forall i :: 0 <= i < |r| ==> r[i] in s
    ensures forall i :: 0 <= i < |s| && !IsJsSpace(s[i]) ==> s[i] in r
    ensures (forall i :: 0 <= i < |s| ==> !IsJsSpace(s[i])) ==> r == s
    ensures |s| == 1 ==> r == (if IsJsSpace(s[0]) then [] else s)
  {
    if |s| == 0 then []
    else
      var rest := StripSpaces(s[1..]);
      assert forall i :: 1 <= i < |s| ==> s[i] == s[1..][i - 1];
      (if IsJsSpace(s[0]) then [] else [s[0]]) + rest
  }

  /**
   * Stripping works piece by piece: the kept characters of `a + b` are those
   * of `a` followed by those of `b`, each in its original order and number.
   */
  lemma {:induction false} StripSpacesAppend(a: JsString, b: JsString)
    ensures StripSpaces(a + b) == StripSpaces(a) + StripSpaces(b)
    decreases |a|
  {
    if |a| > 0 {
      assert (a + b)[1..] == a[1..] + b;
      StripSpacesAppend(a[1..], b);
    } else {
      assert a + b == b;
    }
  }

  /** The code unit of '0'. */
  const ZERO: CodeUnit := 0x30

  /** An LED cell: '0' is off, any other character on. */
  function Cell(u: CodeUnit): nat
  {
    if u == ZERO then 0 else 1
  }

  /** The `reduce` of `displaySymbol`: 2^i added for every character `i` that is not '0'. */
  function SymbolBits(s: JsString): nat
    decreases |s|
  {
    if |s| == 0 then 0
    else SymbolBits(s[..|s| - 1]) + (if s[|s| - 1] == ZERO then 0 else Pow2(|s| - 1))
  }

  lemma {:induction false} SymbolBitsCons(s: JsString)
    requires |s| > 0
    ensures SymbolBits(s) == Cell(s[0]) + 2 * SymbolBits(s[1..])
    decreases |s|
  {
    var n := |s|;
    if n == 1 {
      assert s[..0] == [] && s[1..] == [];
    } else {
      var init := s[..n - 1];
      SymbolBitsCons(init);
      assert init[0] == s[0];
      assert init[1..] == s[1..][..n - 2];
      assert s[1..][n - 2] == s[n - 1];
      assert Pow2(n - 1) == 2 * Pow2(n - 2);
    }
  }

  lemma {:induction false} SymbolBitsBound(s: JsString)
    ensures SymbolBits(s) < Pow2(|s|)
    decreases |s|
  {
    if |s| > 0 {
      SymbolBitsBound(s[..|s| - 1]);
    }
  }

  /** Bit `k` of the packed symbol is cell `k`, and zero past the end of the string. */
  lemma {:induction false} BitOfSymbolBits(s: JsString, k: nat)
    ensures Bit(SymbolBits(s), k) == (if k < |s| then Cell(s[k]) else 0)
    decreases k
  {
    if k >= |s| {
      SymbolBitsBound(s);
      BitAbove(SymbolBits(s), |s|, k);
    } else {
      SymbolBitsCons(s);
      var x := SymbolBits(s);
      assert x / 2 == SymbolBits(s[1..]) && x % 2 == Cell(s[0]);
      if k > 0 {
        BitOfSymbolBits(s[1..], k - 1);
      }
    }
  }

  /** Row `r` of the matrix, `(hex >> 5r) & 0x1F`. */
  function Row(hex: nat, r: nat): Byte
  {
    (hex / Pow2(5 * r)) % 32
  }

  lemma RowBits(s: JsString)
    ensures forall r, j :: 0 <= r < 5 && 0 <= j < 5 ==>
      Bit(Row(SymbolBits(s), r), j) == (if 5 * r + j < |s| then Cell(s[5 * r + j]) else 0)
  {
    forall r, j | 0 <= r < 5 && 0 <= j < 5
      ensures Bit(Row(SymbolBits(s), r), j) == (if 5 * r + j < |s| then Cell(s[5 * r + j]) else 0)
    {
      BitOfField5(SymbolBits(s), 5 * r, j);
      BitOfSymbolBits(s, 5 * r + j);
    }
  }

  /**
   * The five rows `displaySymbol` stores: bit `j` of row `r` is cell `5r + j`
   * of the symbol. `>>` and `&` act on the low 32 bits of the sum, which hold
   * bits 0..24 unchanged, so the exact sum gives the same rows.
   */
  function SymbolRows(symbol: JsString): (rows: seq<Byte>)
    ensures |rows| == Sensors.MATRIX_ROWS
    ensures forall r :: 0 <= r < |rows| ==> rows[r] < 32
    ensures forall r, j :: 0 <= r < 5 && 0 <= j < 5 ==>
      Bit(rows[r], j) == (if 5 * r + j < |symbol| then Cell(symbol[5 * r + j]) else 0)
  {
    var hex := SymbolBits(symbol);
    RowBits(symbol);
    [Row(hex, 0), Row(hex, 1), Row(hex, 2), Row(hex, 3), Row(hex, 4)]
  }

  /** `displaySymbol`: the rows land in `ledMatrixState` and go out as a display-LED command. */
  function DisplaySymbol(m: Driver.MicroBitMore, connected: bool, matrix: JsString): (p: Paced)
    requires Driver.Valid(m)
    ensures Driver.Valid(p.effect.next)
    ensures Driver.GateAfterSend(m.gate, p.effect)
    ensures p.effect.next.sensors == m.sensors.(ledMatrix := SymbolRows(StripSpaces(matrix)))
    ensures p.effect.next.watchdog == m.watchdog
    ensures p.effect.write.Some? <==> connected && !m.gate.busy
    ensures p.effect.write.Some? ==>
      Unframe(p.effect.write.value.frame) == Some(Command(CMD_DISPLAY_LED, SymbolRows(StripSpaces(matrix))))
    ensures p.delayMs == BLE_SEND_INTERVAL_MS
  {
    var rows := SymbolRows(StripSpaces(matrix));
    var m1 := m.(sensors := m.sensors.(ledMatrix := rows));
    Paced(Driver.DisplayMatrix(m1, connected, rows), BLE_SEND_INTERVAL_MS)
  }

  /** `displayClear`: all rows off, sent as a display-LED command. */
  function DisplayClear(m: Driver.MicroBitMore, connected: bool): (p: Paced)
    requires Driver.Valid(m)
    ensures Driver.Valid(p.effect.next)
    ensures Driver.GateAfterSend(m.gate, p.effect)
    ensures forall r :: 0 <= r < |p.effect.next.sensors.ledMatrix| ==> p.effect.next.sensors.ledMatrix[r] == 0
    ensures p.effect.next.sensors == m.sensors.(ledMatrix := p.effect.next.sensors.ledMatrix)
    ensures p.effect.next.watchdog == m.watchdog
    ensures p.effect.write.Some? <==> connected && !m.gate.busy
    ensures p.effect.write.Some? ==> Unframe(p.effect.write.value.frame) == Some(Command(CMD_DISPLAY_LED, [0, 0, 0, 0, 0]))
    ensures p.delayMs == BLE_SEND_INTERVAL_MS
  {
    var rows: seq<Byte> := [0, 0, 0, 0, 0];
    var m1 := m.(sensors := m.sensors.(ledMatrix := rows));
    Paced(Driver.DisplayMatrix(m1, connected, rows), BLE_SEND_INTERVAL_MS)
  }

  /** Scroll time of `n` characters: 6 pixels each, 1 before and 5 after, 120 ms per pixel. */
  function ScrollTime(n: nat): nat
  {
    SCROLL_DELAY_MS * (6 * n + 6)
  }

  /**
   * `displayText`: the first 19 code units are sent (nothing for an empty
   * text) and the block waits for them to scroll past.
   */
  function DisplayText(m: Driver.MicroBitMore, connected: bool, text: JsString): (p: Paced)
    requires Driver.Valid(m)
    ensures Driver.Valid(p.effect.next)
    ensures Driver.GateAfterSend(m.gate, p.effect)
    ensures p.effect.next.sensors == m.sensors && p.effect.next.watchdog == m.watchdog
    ensures p.effect.write.None? ==> p.effect.next == m
    ensures var n := if |text| < TEXT_LIMIT then |text| else TEXT_LIMIT;
      && p.delayMs == ScrollTime(n)
      && (p.effect.write.Some? <==> connected && !m.gate.busy && n > 0)
      && (p.effect.write.Some? ==>
            Unframe(p.effect.write.value.frame) == Some(Command(CMD_DISPLAY_TEXT, Driver.TextBytes(text[..n]))))
    ensures p.effect.write.Some? ==> |p.effect.write.value.frame| <= TEXT_LIMIT + 1
  {
    var shown := if |text| <= TEXT_LIMIT then text else text[..TEXT_LIMIT];
    var effect := if |shown| > 0 then Driver.DisplayText(m, connected, shown) else Driver.Effect(m, None);
    assert shown == text[..|shown|];
    Paced(effect, ScrollTime(|shown|))
  }

  // ---------------------------------------------------------------------
  // Slot 3 flags.

  /**
   * `splitToBools`: `floor(v / 8)` followed by three flags, each 0 or 1, such
   * that joining them gives `v` back. Every step divides by a positive number
   * and the last `%` applies to a value in [0, 2), so JavaScript's floor
   * division and `%` agree with Dafny's here.
   */
  function SplitToBools(v: int): (b: seq<int>)
    ensures |b| == 4
    ensures b[0] == v / 8
    ensures forall i :: 1 <= i < 4 ==> b[i] == 0 || b[i] == 1
    ensures v == 8 * b[0] + 4 * b[1] + 2 * b[2] + b[3]
  {
    var b0 := v / 8;
    var b1 := (v - b0 * 8) / 4;
    var b2 := (v - b0 * 8 - b1 * 4) / 2;
    var b3 := (v - b0 * 8 - b1 * 4) % 2;
    [b0, b1, b2, b3]
  }

  /** `joinBools`. */
  function JoinBools(b: seq<int>): (r: int)
    requires |b| == 4
    ensures (forall i :: 1 <= i < 4 ==> b[i] == 0 || b[i] == 1) ==>
      r / 8 == b[0] && r % 8 == 4 * b[1] + 2 * b[2] + b[3]
  {
    var v := b[0] * 8 + b[1] * 4 + b[2] * 2 + b[3];
    var low := 4 * b[1] + 2 * b[2] + b[3];
    if forall i :: 1 <= i < 4 ==> b[i] == 0 || b[i] == 1 then
      DivUnique(v, 8, b[0], low);
      v
    else
      v
  }

  /** Joining a split gives the number back, for every integer. */
  lemma JoinSplit(v: int)
    ensures JoinBools(SplitToBools(v)) == v
  {
  }

  /** Splitting a join gives the flags back when the last three are 0 or 1. */
  lemma SplitJoin(b: seq<int>)
    requires |b| == 4
    requires forall i :: 1 <= i < 4 ==> b[i] == 0 || b[i] == 1
    ensures SplitToBools(JoinBools(b)) == b
  {
    var c := SplitToBools(JoinBools(b));
    assert c[0] == b[0];
    assert c[1] == b[1];
    assert c[2] == b[2] && c[3] == b[3];
  }

  /** For a four-flag number the split is its bits, most significant first. */
  lemma SplitToBoolsBits(v: int)
    requires 0 <= v < 16
    ensures var b := SplitToBools(v);
      b[0] == Bit(v, 3) && b[1] == Bit(v, 2) && b[2] == Bit(v, 1) && b[3] == Bit(v, 0)
  {
    var b := SplitToBools(v);
    assert b[0] == 0 || b[0] == 1;
    Assemble(v, b[0], b[1], b[2], b[3]);
  }

  function FlagsSlot(m: Driver.MicroBitMore): int
    requires Sensors.Valid(m.sensors)
  {
    Driver.SlotValue(m, FLAGS_SLOT)
  }

  /** Slot 3 rewritten with flag `i` of its split set to the LED state. */
  function SetFlag(m: Driver.MicroBitMore, connected: bool, i: nat, on: bool): (r: Driver.Effect)
    requires Driver.Valid(m) && i < 2
    ensures Driver.Valid(r.next)
    ensures Driver.GateAfterSend(m.gate, r)
    ensures var w := r.next.sensors.slot[FLAGS_SLOT];
      && r.next.sensors == m.sensors.(slot := m.sensors.slot[FLAGS_SLOT := w])
      && SplitToBools(w) == SplitToBools(FlagsSlot(m))[i := if on then 1 else 0]
      && (r.write.Some? ==> r.write.value.frame == [CMD_SLOT_VALUE, FLAGS_SLOT, LowByte(w), HighByte(w)])
    ensures r.next.watchdog == m.watchdog
    ensures r.write.Some? <==> connected && !m.gate.busy
  {
    var bools := SplitToBools(FlagsSlot(m))[i := if on then 1 else 0];
    SplitJoin(bools);
    Driver.SetSlotValue(m, connected, FLAGS_SLOT, JoinBools(bools))
  }

  /** `ledLeft`: the first flag of slot 3 becomes the LED state; the other three are kept. */
  function LedLeft(m: Driver.MicroBitMore, connected: bool, on: bool): (r: Driver.Effect)
    requires Driver.Valid(m)
    ensures Driver.Valid(r.next)
    ensures Driver.GateAfterSend(m.gate, r)
    ensures var w := r.next.sensors.slot[FLAGS_SLOT];
      && r.next.sensors == m.sensors.(slot := m.sensors.slot[FLAGS_SLOT := w])
      && SplitToBools(w) == SplitToBools(FlagsSlot(m))[0 := if on then 1 else 0]
      && (r.write.Some? ==> r.write.value.frame == [CMD_SLOT_VALUE, FLAGS_SLOT, LowByte(w), HighByte(w)])
    ensures r.next.watchdog == m.watchdog
    ensures r.write.Some? <==> connected && !m.gate.busy
  {
    SetFlag(m, connected, 0, on)
  }

  /** `ledRight`: the second flag of slot 3 becomes the LED state; the other three are kept. */
  function LedRight(m: Driver.MicroBitMore, connected: bool, on: bool): (r: Driver.Effect)
    requires Driver.Valid(m)
    ensures Driver.Valid(r.next)
    ensures Driver.GateAfterSend(m.gate, r)
    ensures var w := r.next.sensors.slot[FLAGS_SLOT];
      && r.next.sensors == m.sensors.(slot := m.sensors.slot[FLAGS_SLOT := w])
      && SplitToBools(w) == SplitToBools(FlagsSlot(m))[1 := if on then 1 else 0]
      && (r.write.Some? ==> r.write.value.frame == [CMD_SLOT_VALUE, FLAGS_SLOT, LowByte(w), HighByte(w)])
    ensures r.next.watchdog == m.watchdog
    ensures r.write.Some? <==> connected && !m.gate.busy
  {
    SetFlag(m, connected, 1, on)
  }

  /** A flag value 0..15 with one flag replaced by a bit stays in 0..15. */
  lemma ReplacedFlagsInRange(v: int, w: int, i: nat, c: int)
    requires 0 <= v < 16 && i < 4 && (c == 0 || c == 1)
    requires SplitToBools(w) == SplitToBools(v)[i := c]
    ensures 0 <= w < 16
  {
    var b := SplitToBools(v);
    assert b[0] == 0 || b[0] == 1;
    assert SplitToBools(w)[0] == 0 || SplitToBools(w)[0] == 1;
  }

  /** For a slot holding four flags, `ledLeft` sets bit 3 to the LED state and keeps bits 0..2. */
  lemma LedLeftOnlyBit3(m: Driver.MicroBitMore, connected: bool, on: bool)
    requires Driver.Valid(m) && 0 <= FlagsSlot(m) < 16
    ensures var w := LedLeft(m, connected, on).next.sensors.slot[FLAGS_SLOT];
      && 0 <= w < 16
      && Bit(w, 3) == (if on then 1 else 0)
      && Bit(w, 2) == Bit(FlagsSlot(m), 2)
      && Bit(w, 1) == Bit(FlagsSlot(m), 1)
      && Bit(w, 0) == Bit(FlagsSlot(m), 0)
  {
    var v := FlagsSlot(m);
    var w := LedLeft(m, connected, on).next.sensors.slot[FLAGS_SLOT];
    ReplacedFlagsInRange(v, w, 0, if on then 1 else 0);
    SplitToBoolsBits(v);
    SplitToBoolsBits(w);
  }

  /** For a slot holding four flags, `ledRight` sets bit 2 to the LED state and keeps bits 0, 1 and 3. */
  lemma LedRightOnlyBit2(m: Driver.MicroBitMore, connected: bool, on: bool)
    requires Driver.Valid(m) && 0 <= FlagsSlot(m) < 16
    ensures var w := LedRight(m, connected, on).next.sensors.slot[FLAGS_SLOT];
      && 0 <= w < 16
      && Bit(w, 2) == (if on then 1 else 0)
      && Bit(w, 3) == Bit(FlagsSlot(m), 3)
      && Bit(w, 1) == Bit(FlagsSlot(m), 1)
      && Bit(w, 0) == Bit(FlagsSlot(m), 0)
  {
    var v := FlagsSlot(m);
    var w := LedRight(m, connected, on).next.sensors.slot[FLAGS_SLOT];
    ReplacedFlagsInRange(v, w, 1, if on then 1 else 0);
    SplitToBoolsBits(v);
    SplitToBoolsBits(w);
  }

  /** `getPatrolLeft`: the third flag of slot 3, 0 or 1. */
  function PatrolLeft(m: Driver.MicroBitMore): (r: int)
    requires Sensors.Valid(m.sensors)
    ensures r == 0 || r == 1
  {
    SplitToBools(FlagsSlot(m))[2]
  }

  /** `getPatrolRight`: the fourth flag of slot 3, 0 or 1. */
  function PatrolRight(m: Driver.MicroBitMore): (r: int)
    requires Sensors.Valid(m.sensors)
    ensures r == 0 || r == 1
  {
    SplitToBools(FlagsSlot(m))[3]
  }

  /** For a slot holding four flags, the patrol readings are bits 1 and 0. */
  lemma PatrolBits(m: Driver.MicroBitMore)
    requires Sensors.Valid(m.sensors) && 0 <= FlagsSlot(m) < 16
    ensures PatrolLeft(m) == Bit(FlagsSlot(m), 1)
    ensures PatrolRight(m) == Bit(FlagsSlot(m), 0)
  {
    SplitToBoolsBits(FlagsSlot(m));
  }

  /** Turning an LED never disturbs what the line-sensor flags report. */
  lemma LedsKeepPatrol(m: Driver.MicroBitMore, connected: bool, on: bool)
    requires Driver.Valid(m)
    ensures PatrolLeft(LedLeft(m, connected, on).next) == PatrolLeft(m)
    ensures PatrolRight(LedLeft(m, connected, on).next) == PatrolRight(m)
    ensures PatrolLeft(LedRight(m, connected, on).next) == PatrolLeft(m)
    ensures PatrolRight(LedRight(m, connected, on).next) == PatrolRight(m)
  {
  }

  // ---------------------------------------------------------------------
  // Motors and readings.

  /**
   * `leftMotorSpeed` / `rightMotorSpeed` once `parseInt` has run: `None`
   * stands for NaN, which writes nothing.
   */
  function MotorSpeed(m: Driver.MicroBitMore, connected: bool, slotIndex: nat, parsed: Option<int>): (r: Driver.Effect)
    requires Driver.Valid(m) && (slotIndex == 0 || slotIndex == 1)
    ensures Driver.Valid(r.next)
    ensures Driver.GateAfterSend(m.gate, r)
    ensures parsed.None? ==> r == Driver.Effect(m, None)
    ensures parsed.Some? ==> r.next.sensors == m.sensors.(slot := m.sensors.slot[slotIndex := parsed.value])
    ensures r.next.watchdog == m.watchdog
    ensures r.write.Some? <==> parsed.Some? && connected && !m.gate.busy
    ensures r.write.Some? ==>
      var f := r.write.value.frame;
      && f == [CMD_SLOT_VALUE, slotIndex, LowByte(parsed.value), HighByte(parsed.value)]
      && I16(f[2], f[3]) == ToInt16(parsed.value)
  {
    match parsed
    case None => Driver.Effect(m, None)
    case Some(v) => Driver.SetSlotValue(m, connected, slotIndex, v)
  }

  /** `getDistance`: the distance the Maqueen reports in slot 2. */
  function Distance(m: Driver.MicroBitMore): int
    requires Sensors.Valid(m.sensors)
  {
    Driver.SlotValue(m, 2)
  }

  /** The motor and LED blocks write slots 0, 1 and 3 only, so they never change the distance. */
  lemma DistanceKeptByWrites(m: Driver.MicroBitMore, connected: bool, on: bool, slotIndex: nat, parsed: Option<int>)
    requires Driver.Valid(m) && (slotIndex == 0 || slotIndex == 1)
    ensures Distance(MotorSpeed(m, connected, slotIndex, parsed).next) == Distance(m)
    ensures Distance(LedLeft(m, connected, on).next) == Distance(m)
    ensures Distance(LedRight(m, connected, on).next) == Distance(m)
  {
  }

  /** The distance read after a slots frame is the int16 at offsets 14..15; other shapes leave it alone. */
  lemma DistanceFromFrame(m: Driver.MicroBitMore, data: seq<Byte>)
    requires Driver.Valid(m) && |data| >= 20
    ensures data[19] == 0x02 ==> Distance(Driver.OnMessage(m, data)) == I16(data[14], data[15])
    ensures data[19] != 0x02 ==> Distance(Driver.OnMessage(m, data)) == Distance(m)
  {
  }

  /** The axis menu of `getAcceleration`. */
  datatype Axis = X | Y | Z | OtherAxis

  /** The raw reading the chosen axis shows, if any. */
  function AxisReading(s: Sensors.Sensors, axis: Axis): Option<int>
  {
    match axis
    case X => s.accelerationX
    case Y => s.accelerationY
    case Z => s.accelerationZ
    case OtherAxis => None
  }

  /**
   * `getAcceleration`: milli-g on the chosen axis, NaN before that axis has a
   * reading, and `undefined` (`None`) for an unknown axis.
   */
  function Acceleration(s: Sensors.Sensors, axis: Axis): (r: Option<Sensors.Number>)
    ensures axis == OtherAxis <==> r.None?
    ensures axis != OtherAxis && AxisReading(s, axis).None? ==> r == Some(Sensors.NaN)
    ensures axis != OtherAxis && AxisReading(s, axis).Some? ==>
      r.Some? && r.value.Num? && r.value.value * (Sensors.G as real) == 1000.0 * (AxisReading(s, axis).value as real)
  {
    match axis
    case X => Some(Sensors.MilliG(s.accelerationX))
    case Y => Some(Sensors.MilliG(s.accelerationY))
    case Z => Some(Sensors.MilliG(s.accelerationZ))
    case OtherAxis => None
  }
}
