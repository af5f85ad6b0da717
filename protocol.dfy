/** The values exchanged by the joystick-to-MIDI bridge: the classified
    input events it consumes, the MIDI messages it produces and the fault
    raised when an event names a joystick that is not registered. */
module Protocol {

  /** An outbound MIDI message. Field ranges are not enforced here: the
      MIDI library validates them, not the bridge. */
  datatype Msg =
    | NoteOn(channel: int, note: int)
    | NoteOff(channel: int, note: int)
    | PitchWheel(channel: int, pitch: int)
    | ControlChange(channel: int, control: int, value: int)

  /** One classified joystick event. `id` is the device's instance id;
      a device-added event carries the axis count of the opened handle,
      the only handle property the mapping uses. Axis values are reals
      (nominally in [-1, 1]); a hat reports its direction as (x, y). */
  datatype Event =
    | DeviceAdded(id: int, numAxes: nat)
    | DeviceRemoved(id: int)
    | ButtonDown(id: int, button: int)
    | ButtonUp(id: int, button: int)
    | AxisMotion(id: int, axis: int, value: real)
    | HatMotion(id: int, hat: int, x: int, y: int)
  {
    /** The events that produce messages and leave the registry alone. */
    predicate IsInput() {
      ButtonDown? || ButtonUp? || AxisMotion? || HatMotion?
    }
  }

  /** Looking up an instance id that is not registered (a KeyError). */
  datatype Fault = UnknownDevice(id: int)

  datatype Result<T> = Ok(value: T) | Err(fault: Fault)

  datatype Outcome = Pass | Fail(fault: Fault)
}
