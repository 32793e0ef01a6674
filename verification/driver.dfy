/**
 * `MicroBitMore`, the peripheral driver: the sensor cache, the send gate and
 * the watchdog, stepped by the calls the blocks make and by the callbacks the
 * BLE socket delivers. Whether the socket is connected is an input to every
 * operation that asks; the socket itself is not modelled.
 */
module Driver {
  import opened Bytes
  import opened Wrappers
  import opened Protocol
  import Telemetry
  import Sensors
  import SendGate
  import Watchdog

  datatype MicroBitMore = MicroBitMore(sensors: Sensors.Sensors, gate: SendGate.Gate, watchdog: Watchdog.Watchdog)

  /** What an operation leaves behind: the new driver state and the BLE write it issued, if any. */
  datatype Effect = Effect(next: MicroBitMore, write: Option<SendGate.Write>)

  /**
   * The invariants every call and callback keeps: the cache shape, the send
   * gate, and well-formed watchdog timer names. The watchdog's consistency
   * (`Watchdog.Inv`) is not one of them: `_onConnect` while a timer is
   * pending breaks it for good, and every operation still runs afterwards.
   */
  ghost predicate Valid(m: MicroBitMore)
  {
    Sensors.Valid(m.sensors) && SendGate.Inv(m.gate) && Watchdog.Wf(m.watchdog)
  }

  /**
   * What `send` does to the gate: a dropped send leaves it untouched; a write
   * sets `_busy`, arms a fresh release timer and is itself the fresh write in
   * flight, both named by the next send number.
   */
  ghost predicate GateAfterSend(g: SendGate.Gate, r: Effect)
  {
    && (r.write.None? ==> r.next.gate == g)
    && (r.write.Some? ==>
          && r.next.gate.busy
          && r.write.value.id == g.sends
          && r.next.gate.busyTimeoutId == Some(g.sends)
          && r.next.gate.liveTimers == g.liveTimers + {g.sends}
          && r.next.gate.inFlight == g.inFlight + {g.sends})
  }

  /** The constructor: an initial cache, an idle gate, no watchdog. */
  function Create(): (m: MicroBitMore)
    ensures Valid(m) && Watchdog.Inv(m.watchdog)
    ensures !m.gate.busy && m.watchdog.live == {}
    ensures m.sensors == Sensors.Initial() && m.gate == SendGate.Initial() && m.watchdog == Watchdog.Initial()
  {
    MicroBitMore(Sensors.Initial(), SendGate.Initial(), Watchdog.Initial())
  }

  /** `send`: the frame goes out only when connected and not busy; the cache and watchdog are untouched. */
  function Send(m: MicroBitMore, connected: bool, command: Byte, message: seq<Byte>): (r: Effect)
    requires SendGate.Inv(m.gate)
    ensures SendGate.Inv(r.next.gate)
    ensures r.next.sensors == m.sensors && r.next.watchdog == m.watchdog
    ensures r.write.Some? <==> connected && !m.gate.busy
    ensures r.write.None? ==> r.next == m
    ensures r.write.Some? ==> r.write.value.frame == Frame(command, message) && r.next.gate.busy
    ensures GateAfterSend(m.gate, r)
  {
    var step := SendGate.SendFrame(m.gate, connected, command, message);
    SendGate.NextPreservesInv(m.gate, SendGate.Send(connected, command, message));
    Effect(m.(gate := step.gate), step.write)
  }

  /** A `Uint8Array` built from a string: each UTF-16 code unit reduced modulo 256. */
  function TextBytes(text: JsString): (r: seq<Byte>)
    ensures |r| == |text|
    ensures forall i :: 0 <= i < |text| ==> r[i] == text[i] % 0x100
  {
    seq(|text|, i requires 0 <= i < |text| => text[i] % 0x100)
  }

  /** Text whose code units all fit in a byte (Latin-1) goes out unchanged. */
  lemma TextBytesLatin1(text: JsString)
    ensures (forall i :: 0 <= i < |text| ==> text[i] < 0x100) <==> TextBytes(text) == text
  {
    if TextBytes(text) == text {
      assert forall i :: 0 <= i < |text| ==> text[i] == TextBytes(text)[i] < 0x100;
    }
  }

  /** Wider code units lose their high byte: 'あ' (U+3042) goes out as 'B' (0x42). */
  lemma TextBytesLossy()
    ensures TextBytes([0x3042]) == TextBytes([0x42]) == [0x42]
  {
  }

  /** `displayText`: one byte per code unit behind the display-text command. */
  function DisplayText(m: MicroBitMore, connected: bool, text: JsString): (r: Effect)
    requires Valid(m)
    ensures Valid(r.next)
    ensures r.next.sensors == m.sensors && r.next.watchdog == m.watchdog
    ensures r.write.None? ==> r.next == m
    ensures r.write.Some? <==> connected && !m.gate.busy
    ensures GateAfterSend(m.gate, r)
    ensures r.write.Some? ==> Unframe(r.write.value.frame) == Some(Command(CMD_DISPLAY_TEXT, TextBytes(text)))
    ensures r.write.Some? ==> |r.write.value.frame| == |text| + 1
  {
    UnframeFrame(CMD_DISPLAY_TEXT, TextBytes(text));
    Send(m, connected, CMD_DISPLAY_TEXT, TextBytes(text))
  }

  /** `displayMatrix`: the five row bytes behind the display-LED command. */
  function DisplayMatrix(m: MicroBitMore, connected: bool, matrix: seq<Byte>): (r: Effect)
    requires Valid(m)
    ensures Valid(r.next)
    ensures r.next.sensors == m.sensors && r.next.watchdog == m.watchdog
    ensures r.write.Some? <==> connected && !m.gate.busy
    ensures GateAfterSend(m.gate, r)
    ensures r.write.None? ==> r.next == m
    ensures r.write.Some? ==> Unframe(r.write.value.frame) == Some(Command(CMD_DISPLAY_LED, matrix))
  {
    UnframeFrame(CMD_DISPLAY_LED, matrix);
    Send(m, connected, CMD_DISPLAY_LED, matrix)
  }

  /** `_onConnect`: arm the watchdog (without clearing an older one), then silence the buzzer: PWM 0 on pin 0. */
  function OnConnect(m: MicroBitMore, connected: bool): (r: Effect)
    requires Valid(m)
    ensures r.next.sensors == m.sensors
    ensures r.next.watchdog.timeoutId == Some(m.watchdog.arms)
    ensures r.next.watchdog.live == m.watchdog.live + {m.watchdog.arms}
    ensures Valid(r.next)
    ensures m.watchdog.live == {} ==> Watchdog.Inv(r.next.watchdog)
    ensures r.write.Some? <==> connected && !m.gate.busy
    ensures GateAfterSend(m.gate, r)
    ensures r.write.Some? ==> r.write.value.frame == [CMD_PIN_PWM, 0, 0, 0]
  {
    var m1 := m.(watchdog := Watchdog.Arm(m.watchdog));
    Send(m1, connected, CMD_PIN_PWM, [0, LowByte(0), HighByte(0)])
  }

  /** `_onMessage`: update the cache from the frame, then restart the watchdog; the gate is untouched. */
  function OnMessage(m: MicroBitMore, data: seq<Byte>): (r: MicroBitMore)
    requires Sensors.Valid(m.sensors) && |data| >= Telemetry.MIN_FRAME
    ensures Valid(m) ==> Valid(r)
    ensures r.sensors == Sensors.OnMessage(m.sensors, data)
    ensures r.gate == m.gate
    ensures r.watchdog.timeoutId.Some? && r.watchdog.timeoutId.value in r.watchdog.live
    ensures Watchdog.Inv(m.watchdog) ==> Watchdog.Inv(r.watchdog) && r.watchdog.live == {r.watchdog.timeoutId.value}
    ensures r.watchdog == Watchdog.Restart(m.watchdog)
  {
    MicroBitMore(Sensors.OnMessage(m.sensors, data), m.gate, Watchdog.Restart(m.watchdog))
  }

  /**
   * `reset` (also the second half of `disconnect`): it only cancels the
   * watchdog. The cache and the busy flag are left as they were.
   */
  function Reset(m: MicroBitMore): (r: MicroBitMore)
    ensures Valid(m) ==> Valid(r)
    ensures r.sensors == m.sensors && r.gate == m.gate
    ensures r.watchdog.timeoutId.None?
    ensures m.watchdog.timeoutId.Some? ==> r.watchdog.live == m.watchdog.live - {m.watchdog.timeoutId.value}
    ensures Watchdog.Inv(m.watchdog) ==> Watchdog.Inv(r.watchdog) && r.watchdog.live == {}
  {
    m.(watchdog := Watchdog.Cancel(m.watchdog))
  }

  /**
   * `setSlotValue`: send `[index, lo, hi]`, the int16 little-endian bytes of
   * `value`, and store `value` in the cache whether or not the send went out.
   */
  function SetSlotValue(m: MicroBitMore, connected: bool, index: nat, value: int): (r: Effect)
    requires Valid(m) && index < Sensors.SLOT_COUNT
    ensures Valid(r.next)
    ensures r.next.sensors == m.sensors.(slot := m.sensors.slot[index := value])
    ensures r.next.watchdog == m.watchdog
    ensures r.write.Some? <==> connected && !m.gate.busy
    ensures GateAfterSend(m.gate, r)
    ensures r.write.Some? ==>
      var f := r.write.value.frame;
      && f == [CMD_SLOT_VALUE, index, LowByte(value), HighByte(value)]
      && I16(f[2], f[3]) == ToInt16(value)
      && (-0x8000 <= value < 0x8000 ==> I16(f[2], f[3]) == value)
  {
    I16RoundTrip(value);
    var e := Send(m, connected, CMD_SLOT_VALUE, [index, LowByte(value), HighByte(value)]);
    e.(next := e.next.(sensors := e.next.sensors.(slot := m.sensors.slot[index := value])))
  }

  /** `getSlotValue`. */
  function SlotValue(m: MicroBitMore, index: nat): int
    requires index < |m.sensors.slot|
  {
    m.sensors.slot[index]
  }

  /** `getSlotValue` after `setSlotValue`: the written slot reads the new value, every other slot its old one. */
  lemma SlotReadAfterWrite(m: MicroBitMore, connected: bool, index: nat, value: int, j: nat)
    requires Valid(m) && index < Sensors.SLOT_COUNT && j < Sensors.SLOT_COUNT
    ensures SlotValue(SetSlotValue(m, connected, index, value).next, j) == (if j == index then value else SlotValue(m, j))
  {
  }

  /** A BLE write completing. */
  function WriteComplete(m: MicroBitMore, id: nat): (r: MicroBitMore)
    requires Valid(m)
    ensures Valid(r)
    ensures r.sensors == m.sensors && r.watchdog == m.watchdog
    ensures id in m.gate.inFlight ==> !r.gate.busy
    ensures r.gate == SendGate.CompleteWrite(m.gate, id)
  {
    SendGate.NextPreservesInv(m.gate, SendGate.WriteComplete(id));
    m.(gate := SendGate.CompleteWrite(m.gate, id))
  }

  /** A release timer of the send gate firing. */
  function BusyTimeout(m: MicroBitMore, t: nat): (r: MicroBitMore)
    requires Valid(m)
    ensures Valid(r)
    ensures r.sensors == m.sensors && r.watchdog == m.watchdog
    ensures t in m.gate.liveTimers ==> !r.gate.busy
    ensures r.gate == SendGate.FireTimer(m.gate, t)
  {
    SendGate.NextPreservesInv(m.gate, SendGate.BusyTimeout(t));
    m.(gate := SendGate.FireTimer(m.gate, t))
  }

  /** A watchdog timer firing; `true` when it reports the link stale. */
  function WatchdogTimeout(m: MicroBitMore, t: nat): (r: (MicroBitMore, bool))
    requires Valid(m)
    ensures Valid(r.0)
    ensures r.0.sensors == m.sensors && r.0.gate == m.gate
    ensures r.1 <==> t in m.watchdog.live
    ensures r.0.watchdog.live == m.watchdog.live - {t}
    ensures Watchdog.Inv(m.watchdog) ==> Watchdog.Inv(r.0.watchdog)
  {
    var f := Watchdog.Fire(m.watchdog, t);
    (m.(watchdog := f.0), f.1)
  }

  /** Everything that can happen to the driver. */
  datatype Event =
    | SendCommand(connected: bool, command: Byte, message: seq<Byte>)
    | SetSlot(connected: bool, index: nat, value: int)
    | Connected(connected: bool)
    | Notification(data: seq<Byte>)
    | ResetCalled
    | WriteDone(id: nat)
    | ReleaseTimerFired(timer: nat)
    | WatchdogFired(timer: nat)

  /** The inputs the source can meet: full-length frames, one of the four slots. */
  predicate Admissible(e: Event)
  {
    match e
    case SetSlot(_, index, _) => index < Sensors.SLOT_COUNT
    case Notification(data) => |data| >= Telemetry.MIN_FRAME
    case _ => true
  }

  function Next(m: MicroBitMore, e: Event): MicroBitMore
    requires Valid(m) && Admissible(e)
  {
    match e
    case SendCommand(c, cmd, msg) => Send(m, c, cmd, msg).next
    case SetSlot(c, i, v) => SetSlotValue(m, c, i, v).next
    case Connected(c) => OnConnect(m, c).next
    case Notification(data) => OnMessage(m, data)
    case ResetCalled => Reset(m)
    case WriteDone(id) => WriteComplete(m, id)
    case ReleaseTimerFired(t) => BusyTimeout(m, t)
    case WatchdogFired(t) => WatchdogTimeout(m, t).0
  }

  /**
   * Every event keeps the driver consistent. Every event keeps the watchdog
   * consistent too, except `_onConnect` while a watchdog timer is still
   * pending, which leaks that timer.
   */
  lemma NextPreservesValid(m: MicroBitMore, e: Event)
    requires Valid(m) && Admissible(e)
    ensures Valid(Next(m, e))
    ensures Watchdog.Inv(m.watchdog) && (e.Connected? ==> m.watchdog.live == {}) ==> Watchdog.Inv(Next(m, e).watchdog)
  {
    match e
    case Connected(c) =>
      if Watchdog.Inv(m.watchdog) {
        Watchdog.ArmWhenQuiet(m.watchdog);
      }
    case _ =>
  }

  /**
   * The leak seen from the driver: connecting while a watchdog timer is
   * pending, then `reset`, leaves the older timer pending, and its callback
   * still reports the link stale.
   */
  lemma LeakedTimerReportsStale(m: MicroBitMore, connected: bool)
    requires Valid(m) && Watchdog.Inv(m.watchdog) && m.watchdog.live != {}
    ensures !Watchdog.Inv(OnConnect(m, connected).next.watchdog)
    ensures WatchdogTimeout(Reset(OnConnect(m, connected).next), m.watchdog.timeoutId.value).1
  {
    Watchdog.LeakedTimerOutlivesReset(m.watchdog);
    Watchdog.ArmWhilePendingLeaks(m.watchdog);
  }

  /** A disconnect does not clear the cache: every reading survives `reset`. */
  lemma ResetKeepsReadings(m: MicroBitMore, data: seq<Byte>)
    requires Valid(m) && |data| >= Telemetry.MIN_FRAME
    ensures Reset(OnMessage(m, data)).sensors == Sensors.OnMessage(m.sensors, data)
    ensures Reset(OnMessage(m, data)).gate == m.gate
  {
  }

  /** A slot write while the gate is busy is dropped on the wire but still lands in the cache. */
  lemma DroppedSlotWriteStillCached(m: MicroBitMore, index: nat, value: int)
    requires Valid(m) && index < Sensors.SLOT_COUNT && m.gate.busy
    ensures SetSlotValue(m, true, index, value).write.None?
    ensures SlotValue(SetSlotValue(m, true, index, value).next, index) == value
  {
  }
}
