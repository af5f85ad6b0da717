/** The event mapper: pure translation of one button, axis or hat event,
    given the registry's two maps, into the MIDI messages it produces. */
module Mapper {
  import opened Util
  import opened Protocol

  function Abs(x: real): real { if x < 0.0 then -x else x }

  function IntAbs(x: int): nat { if x < 0 then -x else x }

  function Min(a: real, b: real): real { if b < a then b else a }

  function Max(a: real, b: real): real { if b > a then b else a }

  /** Pitch-wheel value for axis 0: interpolate the axis value onto
      [0, 8192] (so -1 maps to -8192), clamp into [-8192, 8191], floor. */
  function PitchFromAxis(value: real): (pitch: int)
    ensures -8192 <= pitch <= 8191
    ensures value * 8192.0 >= 8191.0 ==> pitch == 8191
    ensures value <= -1.0 ==> pitch == -8192
    ensures -1.0 <= value && value * 8192.0 < 8191.0 ==> pitch == (value * 8192.0).Floor
  {
    Max(-8192.0, Min(Lerp(0.0, 8192.0, value), 8191.0)).Floor
  }

  /** Control-change value for an axis other than 0: interpolate the
      magnitude of the axis value onto [0, 127] and floor. An axis value
      within [-1, 1] stays within 0..127; the value is not clamped. */
  function ControlFromAxis(value: real): (v: int)
    ensures v >= 0
    ensures -1.0 <= value <= 1.0 ==> v <= 127
    ensures -1.0 <= value <= 1.0 ==> (v == 127 <==> (value == 1.0 || value == -1.0))
  {
    Lerp(0.0, 127.0, Abs(value)).Floor
  }

  /** The one message an axis event produces: the pitch wheel for axis 0,
      otherwise control change `axis - 1`. */
  function AxisMessage(channel: int, axis: int, value: real): (m: Msg)
    ensures m.channel == channel
    ensures m.PitchWheel? || m.ControlChange?
    ensures axis == 0 <==> m.PitchWheel?
    ensures m.ControlChange? ==> m.control == axis - 1 && m.value == ControlFromAxis(value)
    ensures m.PitchWheel? ==> m.pitch == PitchFromAxis(value)
  {
    if axis == 0 then PitchWheel(channel, PitchFromAxis(value))
    else ControlChange(channel, axis - 1, ControlFromAxis(value))
  }

  /** First control number of a hat: the controls right after those of
      the axes other than axis 0, two per hat. */
  function HatBase(numAxes: int, hat: int): (base: int)
    ensures hat >= 0 ==> base > numAxes - 2
    ensures (base - (numAxes - 1)) % 2 == 0
  {
    (numAxes - 1) + hat * 2
  }

  /** The two control changes of a hat event: horizontal then vertical,
      each 127 when that direction is pressed and 0 when it is centred. */
  function HatMessages(channel: int, numAxes: int, hat: int, x: int, y: int): (ms: seq<Msg>)
    ensures |ms| == 2
    ensures forall m :: m in ms ==> m.ControlChange? && m.channel == channel
    ensures ms[0].control == HatBase(numAxes, hat) && ms[1].control == ms[0].control + 1
    ensures -1 <= x <= 1 ==> (ms[0].value == 127 <==> x != 0) && (ms[0].value == 0 <==> x == 0)
    ensures -1 <= y <= 1 ==> (ms[1].value == 127 <==> y != 0) && (ms[1].value == 0 <==> y == 0)
  {
    var control := HatBase(numAxes, hat);
    [ControlChange(channel, control, 127 * IntAbs(x)),
     ControlChange(channel, control + 1, 127 * IntAbs(y))]
  }

  /** Translate a button, axis or hat event. The handle is looked up
      first and the channel second; either lookup failing is a KeyError
      on the event's instance id. */
  function Translate(joysticks: map<int, nat>, channels: map<int, int>, e: Event): (r: Result<seq<Msg>>)
    requires e.IsInput()
    ensures r.Err? <==> e.id !in joysticks || e.id !in channels
    ensures r.Err? ==> r.fault == UnknownDevice(e.id)
    ensures r.Ok? ==> |r.value| == (if e.HatMotion? then 2 else 1)
    ensures r.Ok? ==> forall m :: m in r.value ==> m.channel == channels[e.id]
  {
    if e.id !in joysticks || e.id !in channels then Err(UnknownDevice(e.id))
    else
      var channel := channels[e.id];
      match e
      case ButtonDown(_, button) => Ok([NoteOn(channel, button)])
      case ButtonUp(_, button) => Ok([NoteOff(channel, button)])
      case AxisMotion(_, axis, value) => Ok([AxisMessage(channel, axis, value)])
      case HatMotion(_, hat, x, y) => Ok(HatMessages(channel, joysticks[e.id], hat, x, y))
  }

  /** A button press is exactly one note-on and a release exactly one
      note-off, both with the button as the note on the device's channel. */
  lemma ButtonMessages(joysticks: map<int, nat>, channels: map<int, int>, id: int, button: int)
    requires id in joysticks && id in channels
    ensures Translate(joysticks, channels, ButtonDown(id, button)) == Ok([NoteOn(channels[id], button)])
    ensures Translate(joysticks, channels, ButtonUp(id, button)) == Ok([NoteOff(channels[id], button)])
  {
  }

  /** An axis event is exactly one message on the device's channel: the
      pitch wheel for axis 0, control change `axis - 1` for any other axis. */
  lemma AxisEventMessages(joysticks: map<int, nat>, channels: map<int, int>, id: int, axis: int, value: real)
    requires id in joysticks && id in channels
    ensures axis == 0 ==>
              Translate(joysticks, channels, AxisMotion(id, axis, value))
              == Ok([PitchWheel(channels[id], PitchFromAxis(value))])
    ensures axis != 0 ==>
              Translate(joysticks, channels, AxisMotion(id, axis, value))
              == Ok([ControlChange(channels[id], axis - 1, ControlFromAxis(value))])
  {
  }

  /** A hat event is two control changes on the device's channel, the
      horizontal one first, at the two controls that follow the axis
      controls of a device with the stored axis count. */
  lemma HatEventMessages(joysticks: map<int, nat>, channels: map<int, int>, id: int, hat: int, x: int, y: int)
    requires id in joysticks && id in channels
    ensures Translate(joysticks, channels, HatMotion(id, hat, x, y))
         == Ok([ControlChange(channels[id], joysticks[id] - 1 + 2 * hat, 127 * IntAbs(x)),
                ControlChange(channels[id], joysticks[id] + 2 * hat, 127 * IntAbs(y))])
  {
  }

  /** The pitch end points: full deflection one way gives 8191 (8192 is
      clamped off), the other way -8192. */
  lemma PitchEnds()
    ensures PitchFromAxis(1.0) == 8191
    ensures PitchFromAxis(-1.0) == -8192
    ensures PitchFromAxis(0.0) == 0
  {
  }

  /** The pitch is non-decreasing in the axis value. */
  lemma PitchMonotone(a: real, b: real)
    requires a <= b
    ensures PitchFromAxis(a) <= PitchFromAxis(b)
  {
    LerpMonotone(0.0, 8192.0, a, b);
  }

  /** Axis 1 at -0.5 is control 0 with value floor(127 * 0.5) = 63. */
  lemma AxisOneExample(channel: int)
    ensures AxisMessage(channel, 1, -0.5) == ControlChange(channel, 0, 63)
  {
  }

  /** The control value only depends on the magnitude of the deflection,
      and grows with it. */
  lemma ControlSymmetricMonotone(a: real, b: real)
    ensures ControlFromAxis(-a) == ControlFromAxis(a)
    ensures Abs(a) <= Abs(b) ==> ControlFromAxis(a) <= ControlFromAxis(b)
  {
    if Abs(a) <= Abs(b) {
      LerpMonotone(0.0, 127.0, Abs(a), Abs(b));
    }
  }

  /** Hat 0 pushed to (1, -1) on a three-axis device sets controls 2 and 3
      to 127. */
  lemma HatExample(channel: int)
    ensures HatMessages(channel, 3, 0, 1, -1)
         == [ControlChange(channel, 2, 127), ControlChange(channel, 3, 127)]
  {
  }

  /** For a hat with a non-negative index, its controls never collide with
      the control of an axis of the same device (axes 1 .. numAxes-1). */
  lemma HatAvoidsAxes(numAxes: nat, hat: int, axis: int, value: real, x: int, y: int, channel: int)
    requires hat >= 0 && 1 <= axis < numAxes
    ensures forall m :: m in HatMessages(channel, numAxes, hat, x, y) ==>
                          m.control != AxisMessage(channel, axis, value).control
  {
  }

  /** Different hats of one device use disjoint pairs of controls. */
  lemma HatsDisjoint(numAxes: int, h1: int, h2: int, x1: int, y1: int, x2: int, y2: int, channel: int)
    requires h1 != h2
    ensures forall m1, m2 ::
              (m1 in HatMessages(channel, numAxes, h1, x1, y1) && m2 in HatMessages(channel, numAxes, h2, x2, y2))
              ==> m1.control != m2.control
  {
    var a := HatMessages(channel, numAxes, h1, x1, y1);
    var b := HatMessages(channel, numAxes, h2, x2, y2);
    assert forall m :: m in a ==> m == a[0] || m == a[1];
    assert forall m :: m in b ==> m == b[0] || m == b[1];
  }
}
