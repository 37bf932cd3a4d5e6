/** The I2C Encoder V2 driver (drivers/input/i2cRotaryEncoder.ts): three register
    writes set the encoder up, after which an interrupt (or the 90 s poll) reads
    the status register and, on a rotation, the counter, turning the change into
    a step. The bus is the environment: a transfer is logged, its answer is
    a method's argument, and a failed transfer is sent again (the bus restart and
    the one-second delay are not modelled). */
module RotaryEncoder {
  import opened Options
  import opened Bytes

  const GCONF: Byte := 0x00
  const INTCONF: Byte := 0x04
  const ESTATUS: Byte := 0x05
  const CVAL: Byte := 0x08
  const CMAX: Byte := 0x0C
  const R: Byte := 0x18

  /** The event numbers handed to the callback. */
  const INITIALIZED: nat := 255
  const BTN_PUSH: nat := 1
  const BTN_RELEASE: nat := 2
  const ROTATED: nat := 4

  datatype Event = Event(event: nat, value: int)

  /** One I2C transfer: the bytes written and how many are read back. */
  datatype Transfer = Transfer(write: seq<Byte>, readLength: nat)

  /** `setupEncoder`: GCONF with the RGB-encoder type (32) and wrap-around (2). */
  function EncoderFrame(): (f: seq<Byte>)
    ensures f == [0x00, 34]
  {
    [GCONF, 32 + 2]
  }

  /** `setupInt`: INTCONF with the five interrupt sources 0x1F enabled. */
  function IntFrame(): (f: seq<Byte>)
    ensures f == [0x04, 31]
  {
    [INTCONF, 31]
  }

  /** `setCmax`: the 32-bit big-endian counter maximum 100. */
  function CmaxFrame(): (f: seq<Byte>)
    ensures f == [0x0C] + UInt32ToBE(100)
  {
    [CMAX, 0, 0, 0, 100]
  }

  /** `setRgb(r, g, b)`: the three colour registers from R on; `writeUInt8` stores
      a value that is not a byte modulo 256, as ByteOf does. */
  function RgbFrame(r: int, g: int, b: int): (f: seq<Byte>)
    ensures |f| == 4 && f[0] == R
    ensures (f[1] - r) % 256 == 0 && (f[2] - g) % 256 == 0 && (f[3] - b) % 256 == 0
    ensures 0 <= r < 256 && 0 <= g < 256 && 0 <= b < 256 ==> f[1..] == [r, g, b]
  {
    [R, ByteOf(r), ByteOf(g), ByteOf(b)]
  }

  /** What a status byte leads to. */
  datatype Action = Push | Release | ReadPosition | NoEvent

  /** `getStatus` as written: bit 1 is a push, else bit 0 a release, else bit 3 or
      `status && 16` (any non-zero status) a position read. */
  function ClassifyAsWritten(status: Byte): (a: Action)
    ensures a == NoEvent <==> status == 0
  {
    if BitSet(status, 1) then Push
    else if BitSet(status, 0) then Release
    else if BitSet(status, 3) || status != 0 then ReadPosition
    else NoEvent
  }

  /** A double push (status 0x04) is taken for a rotation. */
  lemma DoublePushReadsPosition()
    ensures ClassifyAsWritten(0x04) == ReadPosition
    ensures !BitSet(0x04, 3) && !BitSet(0x04, 4)
  {
  }

  /** `getStatus` with the evident `status & 16`: a position read on an increment
      (bit 3) or a decrement (bit 4). */
  function Classify(status: Byte): Action {
    if BitSet(status, 1) then Push
    else if BitSet(status, 0) then Release
    else if BitSet(status, 3) || BitSet(status, 4) then ReadPosition
    else NoEvent
  }

  /** The push bit wins, then the release bit; then the rotation bits; any other
      status is no event. Where the code as written reads the position, this
      does too or it is no event. */
  lemma ClassifySpec(status: Byte)
    ensures Classify(status) == Push <==> BitSet(status, 1)
    ensures Classify(status) == Release <==> !BitSet(status, 1) && BitSet(status, 0)
    ensures Classify(status) == ReadPosition <==>
      !BitSet(status, 1) && !BitSet(status, 0) && (BitSet(status, 3) || BitSet(status, 4))
    ensures Classify(status) != ClassifyAsWritten(status) ==>
      Classify(status) == NoEvent && ClassifyAsWritten(status) == ReadPosition
  {
    if status == 0 {
      BitSetZero(3);
      BitSetZero(4);
    }
  }

  /** The step `getRotaryPos` reports, as written: the change of the counter byte,
      but 1 for a change above 50 and -1 for one below -50. */
  function OffsetAsWritten(raw: int, last: int): (o: int)
    ensures raw - last > 50 ==> o == 1
    ensures raw - last < -50 ==> o == -1
    ensures -50 <= raw - last <= 50 ==> o == raw - last
  {
    var d := raw - last;
    if d > 50 then 1 else if d < -50 then -1 else d
  }

  /** The counter runs from 0 to 100 and wraps around (as configured by
      EncoderFrame and CmaxFrame). */
  function Wrap(v: int): (w: int)
    ensures 0 <= w <= 100 && (w - v) % 101 == 0
  {
    v % 101
  }

  /** One step up from 100 wraps to 0, and is reported as a step down. */
  lemma WrapUpReportedDown()
    ensures Wrap(100 + 1) == 0 && OffsetAsWritten(0, 100) == -1
  {
  }

  /** The step with the wrap-around in the direction it happened: a jump down by
      more than 50 is one step up past the maximum, a jump up one step down past
      the minimum. */
  function Offset(raw: int, last: int): int {
    var d := raw - last;
    if d > 50 then -1 else if d < -50 then 1 else d
  }

  /** A single step from any counter value is reported as that step; steps of up
      to 50 without wrapping are reported as they are. */
  lemma OffsetSpec(last: int, step: int)
    requires 0 <= last <= 100
    ensures step == 1 || step == -1 ==> Offset(Wrap(last + step), last) == step
    ensures -50 <= step <= 50 && 0 <= last + step <= 100 ==> Offset(last + step, last) == step
  {
  }

  /** Where the setup chain is. */
  datatype Stage = SettingEncoder | SettingCmax | SettingInt | Ready

  function StageFrame(s: Stage): seq<Byte>
    requires s != Ready
  {
    match s
    case SettingEncoder => EncoderFrame()
    case SettingCmax => CmaxFrame()
    case SettingInt => IntFrame()
  }

  class Encoder {
    const addr: Byte
    /** `initialized`: set at the end of the setup chain. */
    var initialized: bool
    var stage: Stage
    /** `lastpos`: the counter byte last read. */
    var lastpos: int
    /** The transfers sent to `addr`, in order. */
    var transfers: seq<Transfer>

    ghost predicate Valid()
      reads this
    {
      initialized <==> stage == Ready
    }

    constructor (addr: Byte)
      ensures Valid() && this.addr == addr && !initialized && stage == SettingEncoder
      ensures lastpos == 0 && transfers == []
    {
      this.addr := addr;
      initialized := false;
      stage := SettingEncoder;
      lastpos := 0;
      transfers := [];
    }

    /** The start-up timer fires: the first setup write goes out. */
    method Begin()
      requires Valid()
      modifies this
      ensures Valid() && unchanged(this`stage) && unchanged(this`initialized) && lastpos == old(lastpos)
      ensures stage != Ready ==> transfers == old(transfers) + [Transfer(StageFrame(stage), 0)]
      ensures stage == Ready ==> transfers == old(transfers)
    {
      if stage != Ready {
        transfers := transfers + [Transfer(StageFrame(stage), 0)];
      }
    }

    /** A setup write is answered: on an error it is sent again; otherwise the next
        one goes out, and after the last the encoder is initialized and the
        callback gets INITIALIZED. */
    method SetupDone(failed: bool) returns (ev: Option<Event>)
      requires Valid() && stage != Ready
      modifies this
      ensures Valid() && lastpos == old(lastpos)
      ensures failed ==> stage == old(stage) && ev.None? && transfers == old(transfers) + [Transfer(StageFrame(stage), 0)]
      ensures !failed && old(stage) == SettingEncoder ==> stage == SettingCmax && ev.None? && transfers == old(transfers) + [Transfer(CmaxFrame(), 0)]
      ensures !failed && old(stage) == SettingCmax ==> stage == SettingInt && ev.None? && transfers == old(transfers) + [Transfer(IntFrame(), 0)]
      ensures !failed && old(stage) == SettingInt ==> initialized && ev == Some(Event(INITIALIZED, 0)) && transfers == old(transfers)
    {
      ev := None;
      if failed {
        transfers := transfers + [Transfer(StageFrame(stage), 0)];
        return;
      }
      match stage
      case SettingEncoder =>
        stage := SettingCmax;
        transfers := transfers + [Transfer(CmaxFrame(), 0)];
      case SettingCmax =>
        stage := SettingInt;
        transfers := transfers + [Transfer(IntFrame(), 0)];
      case SettingInt =>
        stage := Ready;
        initialized := true;
        ev := Some(Event(INITIALIZED, 0));
    }

    /** The interrupt pin falls, or the poll timer fires: once initialized, the
        status register is read (one byte). */
    method Interrupt()
      requires Valid()
      modifies this
      ensures Valid() && stage == old(stage) && initialized == old(initialized) && lastpos == old(lastpos)
      ensures transfers == old(transfers) + if initialized then [Transfer([ESTATUS], 1)] else []
    {
      if initialized {
        transfers := transfers + [Transfer([ESTATUS], 1)];
      }
    }

    /** The status read is answered (None: with an error, and it is sent again). */
    method StatusRead(answer: Option<Byte>) returns (ev: Option<Event>)
      requires Valid()
      modifies this
      ensures Valid() && stage == old(stage) && initialized == old(initialized) && lastpos == old(lastpos)
      ensures answer.None? ==> ev.None? && transfers == old(transfers) + [Transfer([ESTATUS], 1)]
      ensures answer.Some? ==>
        var a := Classify(answer.value);
        && (a == Push ==> ev == Some(Event(BTN_PUSH, 0)) && transfers == old(transfers))
        && (a == Release ==> ev == Some(Event(BTN_RELEASE, 0)) && transfers == old(transfers))
        && (a == ReadPosition ==> ev.None? && transfers == old(transfers) + [Transfer([CVAL], 4)])
        && (a == NoEvent ==> ev.None? && transfers == old(transfers))
    {
      ev := None;
      if answer.None? {
        transfers := transfers + [Transfer([ESTATUS], 1)];
        return;
      }
      match Classify(answer.value)
      case Push => ev := Some(Event(BTN_PUSH, 0));
      case Release => ev := Some(Event(BTN_RELEASE, 0));
      case ReadPosition => transfers := transfers + [Transfer([CVAL], 4)];
      case NoEvent =>
    }

    /** The counter read is answered (None: with an error, and it is sent again):
        with exactly four bytes, the step from the last value is reported and the
        last byte becomes the last value; with any other length nothing happens. */
    method PositionRead(answer: Option<seq<Byte>>) returns (ev: Option<Event>)
      requires Valid()
      modifies this
      ensures Valid() && stage == old(stage) && initialized == old(initialized)
      ensures answer.None? ==> ev.None? && lastpos == old(lastpos) && transfers == old(transfers) + [Transfer([CVAL], 4)]
      ensures answer.Some? && |answer.value| == 4 ==>
        && ev == Some(Event(ROTATED, Offset(answer.value[3], old(lastpos))))
        && lastpos == answer.value[3] && transfers == old(transfers)
      ensures answer.Some? && |answer.value| != 4 ==> ev.None? && lastpos == old(lastpos) && transfers == old(transfers)
    {
      ev := None;
      if answer.None? {
        transfers := transfers + [Transfer([CVAL], 4)];
        return;
      }
      var data := answer.value;
      if |data| == 4 {
        var offset := data[3] - lastpos;
        if offset > 50 {
          offset := -1;
        }
        if offset < -50 {
          offset := 1;
        }
        lastpos := data[3];
        ev := Some(Event(ROTATED, offset));
      }
    }
  }
}
