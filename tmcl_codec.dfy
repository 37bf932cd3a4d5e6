/** The stateless side of the TMCL driver for the TMCM-3212 three-axis stepper
    controller: the 7-byte command and reply frames, the reply status codes, the
    correlation key a request is filed under, the timeouts, and the opcode of
    each public command. */
module TmclCodec {
  import opened Bytes
  import opened Options
  import Text

  // Opcodes
  const ROR: Byte := 1             // rotate right
  const ROL: Byte := 2             // rotate left
  const MST: Byte := 3             // motor stop
  const MVP: Byte := 4             // move to position (type 0 absolute, 1 relative)
  const SAP: Byte := 5             // set axis parameter
  const GAP: Byte := 6             // get axis parameter
  const SGP: Byte := 9             // set global parameter
  const GGP: Byte := 10            // get global parameter
  const RFS: Byte := 13            // reference search (type 0 start, 2 status)
  const SIO: Byte := 14            // set output
  const GIO: Byte := 15            // get input
  const TARGET_REACHED: Byte := 138

  // Reply status codes
  const STATUS_OK: Byte := 100
  const STATUS_LOADED: Byte := 101
  const STATUS_EVENT: Byte := 128

  const TIMEOUT_MOTION_MS: nat := 300000
  const TIMEOUT_MS: nat := 5000

  const FRAME_LEN: nat := 7
  const CAN_ID_LEN: int := 11

  /** The two requests that complete on a later target-reached event rather than on
      their reply: a move, and the start of a reference search. */
  predicate IsMotion(command: Byte, typ: Byte) {
    command == MVP || (command == RFS && typ == 0)
  }

  /** `(device << 8) | command`: the key a reply is looked up under. The two fields
      occupy disjoint bits, so the bitwise or is this sum. */
  function ReplyKey(device: Byte, command: Byte): nat {
    device * 0x100 + command
  }

  /** The key a request is filed under: the reply key, plus `(motorBank + 1) << 16`
      for a move or a reference search start. */
  function Key(device: Byte, command: Byte, typ: Byte, motorBank: Byte): nat {
    if IsMotion(command, typ) then ReplyKey(device, command) + (motorBank + 1) * 0x1_0000
    else ReplyKey(device, command)
  }

  function KeyCommand(k: nat): Byte { k % 0x100 }
  function KeyDevice(k: nat): Byte { (k / 0x100) % 0x100 }
  function KeyAxis(k: nat): nat { k / 0x1_0000 }

  /** The fields can be read back from a key. */
  lemma KeyFields(device: Byte, command: Byte, typ: Byte, motorBank: Byte)
    ensures var k := Key(device, command, typ, motorBank);
      && KeyCommand(k) == command
      && KeyDevice(k) == device
      && KeyAxis(k) == if IsMotion(command, typ) then motorBank + 1 else 0
  {
  }

  /** A reply key carries no axis. */
  lemma ReplyKeyFields(device: Byte, command: Byte)
    ensures var k := ReplyKey(device, command);
      KeyCommand(k) == command && KeyDevice(k) == device && KeyAxis(k) == 0
  {
  }

  /** Two requests share a key exactly when they go to the same device with the same
      opcode, are both motion requests or both not, and, for motion requests, address
      the same axis. So moves and searches on different axes never collide, and every
      other opcode has one key per device whatever the axis. */
  lemma KeysEqual(d: Byte, c: Byte, t: Byte, m: Byte, d': Byte, c': Byte, t': Byte, m': Byte)
    ensures Key(d, c, t, m) == Key(d', c', t', m') <==>
      && d == d' && c == c'
      && IsMotion(c, t) == IsMotion(c', t')
      && (IsMotion(c, t) ==> m == m')
  {
    KeyFields(d, c, t, m);
    KeyFields(d', c', t', m');
  }

  /** No reply is ever looked up under the key of a motion request: the reply to a
      move or a search start cannot resolve it. Every other request is found under
      the reply key of its device and opcode. */
  lemma ReplyKeyMatches(device: Byte, command: Byte, d: Byte, c: Byte, t: Byte, m: Byte)
    ensures ReplyKey(device, command) == Key(d, c, t, m) <==>
      !IsMotion(c, t) && device == d && command == c
  {
    KeyFields(d, c, t, m);
    ReplyKeyFields(device, command);
  }

  /** 300 s for the requests that wait for motion to finish, 5 s otherwise. */
  function TimeoutMs(command: Byte, typ: Byte): nat {
    if IsMotion(command, typ) then TIMEOUT_MOTION_MS else TIMEOUT_MS
  }

  /** The long timeout goes exactly with the keys that carry an axis. */
  lemma TimeoutFollowsKey(device: Byte, command: Byte, typ: Byte, motorBank: Byte)
    ensures TimeoutMs(command, typ) == TIMEOUT_MOTION_MS <==> KeyAxis(Key(device, command, typ, motorBank)) != 0
    ensures TimeoutMs(command, typ) == TIMEOUT_MS <==> KeyAxis(Key(device, command, typ, motorBank)) == 0
  {
    KeyFields(device, command, typ, motorBank);
  }

  // ---------------------------------------------------------------------------
  // Frames

  /** The command frame: opcode, type, motor bank, then the value as a big-endian
      32-bit word (modulo 2^32, so a negative value goes out in two's complement). */
  function EncodeCommand(command: Byte, typ: Byte, motorBank: Byte, value: int): (frame: seq<Byte>)
    ensures |frame| == FRAME_LEN
  {
    [command, typ, motorBank] + UInt32ToBE(ToUInt32(value))
  }

  datatype CommandFrame = CommandFrame(command: Byte, typ: Byte, motorBank: Byte, value: nat)

  /** How the controller reads a command frame. */
  function ParseCommand(frame: seq<Byte>): Option<CommandFrame> {
    if |frame| != FRAME_LEN then None
    else Some(CommandFrame(frame[0], frame[1], frame[2], BEToUInt32(frame[3..7])))
  }

  /** A command frame carries exactly its four fields. */
  lemma CommandRoundTrip(command: Byte, typ: Byte, motorBank: Byte, value: int)
    ensures ParseCommand(EncodeCommand(command, typ, motorBank, value))
         == Some(CommandFrame(command, typ, motorBank, ToUInt32(value)))
  {
    var f := EncodeCommand(command, typ, motorBank, value);
    assert f[3..7] == UInt32ToBE(ToUInt32(value));
    BERoundTrip(ToUInt32(value));
  }

  /** Every 7-byte frame is the encoding of the fields read from it. */
  lemma CommandFrameOfFields(frame: seq<Byte>)
    requires |frame| == FRAME_LEN
    ensures var c := ParseCommand(frame).value;
      EncodeCommand(c.command, c.typ, c.motorBank, c.value) == frame
  {
    BERoundTripBytes(frame[3..7]);
  }

  /** A reply: replying device, status, opcode, and the big-endian value. */
  datatype Reply = Reply(device: Byte, status: Byte, command: Byte, value: nat)

  /** Decodes a reply frame; anything but 7 bytes is not a reply. */
  function DecodeReply(data: seq<Byte>): (r: Option<Reply>)
    ensures r.Some? <==> |data| == FRAME_LEN
    ensures r.Some? ==> r.value.value < TWO_32
  {
    if |data| != FRAME_LEN then None
    else Some(Reply(data[0], data[1], data[2], BEToUInt32(data[3..7])))
  }

  /** How the controller writes a reply (the bytes between the value and the
      device, status and opcode are the big-endian value). */
  function EncodeReply(r: Reply): (data: seq<Byte>)
    requires r.value < TWO_32
    ensures |data| == FRAME_LEN
  {
    [r.device, r.status, r.command] + UInt32ToBE(r.value)
  }

  lemma ReplyRoundTrip(r: Reply)
    requires r.value < TWO_32
    ensures DecodeReply(EncodeReply(r)) == Some(r)
  {
    assert EncodeReply(r)[3..7] == UInt32ToBE(r.value);
    BERoundTrip(r.value);
  }

  lemma ReplyBytesRoundTrip(data: seq<Byte>)
    requires |data| == FRAME_LEN
    ensures EncodeReply(DecodeReply(data).value) == data
  {
    BERoundTripBytes(data[3..7]);
  }

  /** A frame is considered only when it has 7 bytes and came with the reply
      identifier as an 11-bit id. */
  predicate Accepts(data: seq<Byte>, id: int, idLen: int, replyId: int) {
    |data| == FRAME_LEN && id == replyId && idLen == CAN_ID_LEN
  }

  /** The unsolicited "target position reached" event. */
  predicate IsTargetReached(r: Reply) {
    r.status == STATUS_EVENT && r.command == TARGET_REACHED
  }

  /** In the event, the mask of axes that reached their target is byte 6, the low
      byte of the value. */
  lemma MaskIsLowByte(data: seq<Byte>)
    requires |data| == FRAME_LEN
    ensures DecodeReply(data).value.value % 0x100 == data[6]
  {
  }

  // ---------------------------------------------------------------------------
  // Outcomes

  datatype TmclError =
    | LoadedIntoEeprom                                 // status 101
    | WrongChecksum                                    // status 1
    | InvalidCommand                                   // status 2
    | WrongType                                        // status 3
    | InvalidValue                                     // status 4
    | EepromLocked                                     // status 5 and 6
    | UnknownStatus(code: Byte)
    | Timeout(typ: Byte, command: Byte, motorBank: Byte)
    | TransmitFailed

  /** What a done-handler is called with: no error and a value (undefined on a
      target-reached completion), or an error and no value. */
  datatype Outcome = Success(value: Option<nat>) | Failure(error: TmclError)

  /** The error a reply status stands for; none for 100. */
  function StatusError(status: Byte): Option<TmclError> {
    if status == STATUS_OK then None
    else if status == STATUS_LOADED then Some(LoadedIntoEeprom)
    else if status == 1 then Some(WrongChecksum)
    else if status == 2 then Some(InvalidCommand)
    else if status == 3 then Some(WrongType)
    else if status == 4 then Some(InvalidValue)
    else if status == 5 || status == 6 then Some(EepromLocked)
    else Some(UnknownStatus(status))
  }

  /** What a reply with this status and value resolves its request with. */
  function StatusOutcome(status: Byte, value: nat): Outcome {
    match StatusError(status)
    case None => Success(Some(value))
    case Some(e) => Failure(e)
  }

  function Message(e: TmclError): string {
    match e
    case LoadedIntoEeprom => "command loaded into EEPROM, " + "but we currently only do direct mode"
    case WrongChecksum => "wrong checksum"
    case InvalidCommand => "invalid command"
    case WrongType => "wrong type"
    case InvalidValue => "invalid value"
    case EepromLocked => "configuration EEPROM locked"
    case UnknownStatus(code) => "unknown TMCL status code " + Text.NatToString(code)
    case Timeout(typ, command, motorBank) =>
      "timeout " + Text.NatToString(typ) + "/" + Text.NatToString(command) + "/" + Text.NatToString(motorBank)
    case TransmitFailed => "transmit error"
  }

  predicate IsKnownStatus(status: Byte) {
    status == STATUS_OK || status == STATUS_LOADED || 1 <= status <= 6
  }

  /** A reply succeeds exactly on status 100, and then carries the frame's value;
      an unlisted status is reported with its code. */
  lemma StatusOutcomeCases(status: Byte, value: nat)
    ensures StatusOutcome(status, value).Success? <==> status == STATUS_OK
    ensures status == STATUS_OK ==> StatusOutcome(status, value) == Success(Some(value))
    ensures StatusOutcome(status, value) == Failure(UnknownStatus(status)) <==> !IsKnownStatus(status)
  {
  }

  /** Two different failing statuses give different messages, except 5 and 6. */
  lemma StatusMessagesDistinct(s1: Byte, s2: Byte)
    requires s1 != s2 && s1 != STATUS_OK && s2 != STATUS_OK
    requires !(s1 in {5, 6} && s2 in {5, 6})
    ensures Message(StatusError(s1).value) != Message(StatusError(s2).value)
  {
    var m1, m2 := Message(StatusError(s1).value), Message(StatusError(s2).value);
    if !IsKnownStatus(s1) && !IsKnownStatus(s2) {
      var p := "unknown TMCL status code ";
      assert m1 == p + Text.NatToString(s1) && m2 == p + Text.NatToString(s2);
      if m1 == m2 {
        assert m1[|p|..] == Text.NatToString(s1) && m2[|p|..] == Text.NatToString(s2);
        Text.NatToStringInjective(s1, s2);
      }
    } else if !IsKnownStatus(s1) {
      assert m1[0] == 'u';
      KnownMessageStart(s2);
    } else if !IsKnownStatus(s2) {
      assert m2[0] == 'u';
      KnownMessageStart(s1);
    } else {
      KnownMessageLength(s1);
      KnownMessageLength(s2);
    }
  }

  /** The listed failing statuses' messages have different lengths, except 5 and 6. */
  lemma KnownMessageLength(status: Byte)
    requires IsKnownStatus(status) && status != STATUS_OK
    ensures |Message(StatusError(status).value)| ==
      match status
      case 1 => 14 case 2 => 15 case 3 => 10 case 4 => 13 case 101 => 64 case _ => 27
  {
  }

  lemma KnownMessageStart(status: Byte)
    requires IsKnownStatus(status) && status != STATUS_OK
    ensures Message(StatusError(status).value)[0] != 'u'
  {
    if status == 1 || status == 3 {
      assert Message(StatusError(status).value)[0] == 'w';
    } else if status == 2 || status == 4 {
      assert Message(StatusError(status).value)[0] == 'i';
    } else if status == STATUS_LOADED {
      assert StatusError(status) == Some(LoadedIntoEeprom);
      assert Message(LoadedIntoEeprom)[0] == 'c';
    } else {
      assert StatusError(status) == Some(EepromLocked);
      assert Message(EepromLocked)[0] == 'c';
    }
  }

  // ---------------------------------------------------------------------------
  // The public commands

  datatype Op =
    | RotateRight(motor: Byte, microstepsPerSecond: int)
    | RotateLeft(motor: Byte, microstepsPerSecond: int)
    | MotorStop(motor: Byte)
    | MoveToPositionAbs(motor: Byte, position: int)
    | MoveToPositionRel(motor: Byte, offset: int)
    | SetAxisParameter(motor: Byte, typ: Byte, value: int)
    | GetAxisParameter(motor: Byte, typ: Byte)
    | SetGlobalParameter(typ: Byte, value: int)
    | GetGlobalParameter(typ: Byte)
    | ReferenceSearch(motor: Byte)
    | SetGpioLevel(port: Option<Byte>, bank: Byte, level: int)
    | GetGpioLevel(port: Option<Byte>, bank: Byte)

  /** The four arguments a command passes to `transmit`. */
  datatype Command = Command(command: Byte, typ: Byte, motorBank: Byte, value: int)

  function OpCommand(op: Op): Command {
    match op
    case RotateRight(motor, v) => Command(ROR, 0, motor, v)
    case RotateLeft(motor, v) => Command(ROL, 0, motor, v)
    case MotorStop(motor) => Command(MST, 0, motor, 0)
    case MoveToPositionAbs(motor, p) => Command(MVP, 0, motor, p)
    case MoveToPositionRel(motor, o) => Command(MVP, 1, motor, o)
    case SetAxisParameter(motor, t, v) => Command(SAP, t, motor, v)
    case GetAxisParameter(motor, t) => Command(GAP, t, motor, 0)
    case SetGlobalParameter(t, v) => Command(SGP, t, 0, v)               // bank 0 only
    case GetGlobalParameter(t) => Command(GGP, t, 0, 0)
    case ReferenceSearch(motor) => Command(RFS, 0, motor, 0)
    case SetGpioLevel(port, bank, level) => Command(SIO, PortType(port), bank, level)
    case GetGpioLevel(port, bank) => Command(GIO, PortType(port), bank, 0)
  }

  /** A null port addresses all ports, as type 255. */
  function PortType(port: Option<Byte>): Byte {
    if port.None? then 255 else port.value
  }

  /** Exactly the two moves and the reference search wait for the target-reached
      event, and they are filed under their own axis. */
  lemma MotionOps(op: Op, device: Byte)
    ensures var c := OpCommand(op);
      IsMotion(c.command, c.typ) <==> op.MoveToPositionAbs? || op.MoveToPositionRel? || op.ReferenceSearch?
    ensures var c := OpCommand(op);
      IsMotion(c.command, c.typ) ==> KeyAxis(Key(device, c.command, c.typ, c.motorBank)) == op.motor + 1
  {
    var c := OpCommand(op);
    KeyFields(device, c.command, c.typ, c.motorBank);
  }
}
