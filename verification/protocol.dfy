/**
 * The outbound half of the micro:bit More BLE protocol: the command bytes and
 * the frame `MicroBitMore.send` writes, one command byte followed by the
 * command's payload.
 */
module Protocol {
  import opened Bytes
  import opened Wrappers

  const CMD_DISPLAY_TEXT: Byte := 0x81
  const CMD_DISPLAY_LED: Byte := 0x82
  const CMD_PIN_PWM: Byte := 0x92
  const CMD_SLOT_VALUE: Byte := 0xA0

  /** A command as the device reads it back out of a frame. */
  datatype Command = Command(tag: Byte, payload: seq<Byte>)

  /** The bytes handed to the BLE write: the command byte, then the message. */
  function Frame(command: Byte, message: seq<Byte>): (r: seq<Byte>)
    ensures |r| == |message| + 1
    ensures r[0] == command
    ensures forall i :: 0 <= i < |message| ==> r[i + 1] == message[i]
  {
    [command] + message
  }

  /** How the peripheral splits a received frame; an empty write carries no command. */
  function Unframe(frame: seq<Byte>): (r: Option<Command>)
    ensures r.None? <==> |frame| == 0
    ensures r.Some? ==> |r.value.payload| == |frame| - 1
  {
    if |frame| == 0 then None else Some(Command(frame[0], frame[1..]))
  }

  /** Framing round trip: the peripheral recovers exactly the command and payload that were sent. */
  lemma UnframeFrame(command: Byte, message: seq<Byte>)
    ensures Unframe(Frame(command, message)) == Some(Command(command, message))
  {
    assert Frame(command, message)[1..] == message;
  }

  /** Every non-empty frame is the framing of the command it carries. */
  lemma FrameUnframe(frame: seq<Byte>)
    requires |frame| > 0
    ensures Frame(Unframe(frame).value.tag, Unframe(frame).value.payload) == frame
  {
  }
}
