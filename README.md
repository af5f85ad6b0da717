# joystick-midi, modelled in Dafny

joystick-midi turns game-controller input into a MIDI stream. Each connected
joystick is given a MIDI channel when it is plugged in. Its button presses and
releases become note-on and note-off messages. Axis 0 drives the pitch wheel.
Every other axis, and each direction of every hat (d-pad), becomes a
control-change message.

This project models the body of the event loop in `joystick_midi/main.py` and
the `lerp` helper in `joystick_midi/util.py`:

- `Util` (util.dfy): `Lerp`, linear interpolation, and its properties.
- `Protocol` (protocol.dfy): the value types. They are the MIDI message
  (`Msg`), the six classified events (`Event`), the unknown-device fault
  (`Fault`, which stands for Python's `KeyError`), and `Result` / `Outcome`.
- `Mapper` (mapper.dfy): the pure translation of one button, axis or hat
  event into messages, given the registry's maps.
- `Registry` (registry.dfy): the class `ChannelRegistry`. Its two map fields
  correspond to the source's dictionaries:
  - `joysticks` maps an instance id to the axis count of its handle;
  - `channels` maps an instance id to its channel.

  `Add`, `Remove` and `Handle` update these maps in place, as the loop body
  does. `MaxChannel` is Python's `max(values, default=-1)` written as a loop.
  It is specified by the ghost function `Highest`.

The input subsystem is a parameter. A device-added event carries the instance
id and the axis count of the opened handle, and nothing else is queried. The
output port is left out too: `Handle` returns the messages one event produces,
in the order the source sends them. Axis values are mathematical reals.

Channels are not a high-water mark. Removing a device deletes its id from both
maps (main.py:42-43), and a new id gets `max(remaining channels, default=-1) + 1`
(main.py:37). Removal can therefore lower the next channel, but never raises
it (`NextAfterRemove`). If the device on the top channel is removed, that
channel or a lower one is handed out next (`NextAfterRemove`). The freed
channel comes next exactly when it is 0 or the channel just below it is still
held; otherwise a lower one does (`FreedTopChannel`). With devices on channels
0 and 1 only, it is that channel (`TopChannelReissued`). An id that is removed and
added again is treated as a new id (`ReaddedChannel`):
- if it did not hold the top channel, it gets the channel the next new device
  would have got, which differs from its old one;
- if it held the top channel, it gets that channel or a lower one.

## Model

| member | source | states |
|---|---|---|
| Util.Lerp | joystick_midi/util.py:13-14 | amount 0 gives `left` and amount 1 gives `right` |
| Util.LerpAffine | joystick_midi/util.py:14 | moving the amount by d moves the result by d times (right - left) |
| Util.LerpMonotone | joystick_midi/util.py:14 | non-decreasing in the amount when left <= right |
| Util.LerpWithin | joystick_midi/util.py:14 | for amount in [0, 1] and left <= right the result lies in [left, right] |
| Util.LerpUnclampedBelow | joystick_midi/util.py:14 | no internal clamping: a negative amount gives a result below `left` |
| Util.LerpUnclampedAbove | joystick_midi/util.py:14 | no internal clamping: an amount above 1 gives a result above `right` |
| Util.LerpPitchEnds | joystick_midi/util.py:13-14 | lerp(0, 8192, -1) = -8192, lerp(0, 8192, 1) = 8192, lerp(0, 127, 0) = 0 |
| Mapper.PitchFromAxis | joystick_midi/main.py:63-68 | the pitch always lies in [-8192, 8191]; it is 8191 once 8192·v reaches 8191 and -8192 for v <= -1; otherwise, for v >= -1, it is floor(8192·v) |
| Mapper.ControlFromAxis | joystick_midi/main.py:69-75 | the value is never negative; for v in [-1, 1] it is at most 127, and it equals 127 exactly when \|v\| = 1 |
| Mapper.AxisMessage | joystick_midi/main.py:62-75 | always a pitch wheel or a control change on the given channel: the pitch wheel exactly for axis 0, otherwise control change `axis - 1` with the control value |
| Mapper.HatBase | joystick_midi/main.py:83 | for hat >= 0 the first hat control lies above every axis control 0 .. numaxes-2, and hat bases are an even distance from numaxes-1 |
| Mapper.HatMessages | joystick_midi/main.py:82-100 | exactly two control changes on the channel, controls base and base+1 with base = numaxes-1 + 2·hat; for a direction in {-1,0,1} each value is 127 when pressed and 0 when centred |
| Mapper.Translate | joystick_midi/main.py:47-100 | fails with the unknown-device fault exactly when the id has no handle or no channel; otherwise one message for buttons and axes, two for hats, all on the id's channel |
| Mapper.ButtonMessages | joystick_midi/main.py:47-56 | a button press is exactly one note-on, and a release exactly one note-off, with the button as the note on the id's channel |
| Mapper.AxisEventMessages | joystick_midi/main.py:59-76 | for a registered id, axis 0 gives exactly one pitch wheel with the pitch value, and axis k != 0 exactly one control change k-1 with the control value, on the id's channel |
| Mapper.HatEventMessages | joystick_midi/main.py:79-100 | for a registered id, a hat gives exactly two control changes on the id's channel, controls numaxes-1+2·hat then numaxes+2·hat, with values 127·\|x\| then 127·\|y\| |
| Mapper.PitchEnds | joystick_midi/main.py:67 | axis 0 at 1 gives 8191, at -1 gives -8192, at 0 gives 0 |
| Mapper.PitchMonotone | joystick_midi/main.py:67 | the pitch is non-decreasing in the axis value |
| Mapper.AxisOneExample | joystick_midi/main.py:70-75 | axis 1 at -0.5 gives control 0 with value 63 |
| Mapper.ControlSymmetricMonotone | joystick_midi/main.py:74 | the control value depends only on \|v\| and is non-decreasing in it |
| Mapper.HatExample | joystick_midi/main.py:83-100 | hat 0 at (1, -1) on a three-axis device gives control 2 = 127, then control 3 = 127 |
| Mapper.HatAvoidsAxes | joystick_midi/main.py:69-90 | for hat >= 0, a hat's controls never equal the control of axis 1 .. numaxes-1 of the same device |
| Mapper.HatsDisjoint | joystick_midi/main.py:83-98 | two different hats of a device use disjoint control pairs |
| Registry.Highest | joystick_midi/main.py:37 | -1 for no values, otherwise the largest value |
| Registry.NextChannel | joystick_midi/main.py:37 | 0 on an empty map; otherwise one more than the largest channel mapped, so it is above every channel |
| Registry.Assigned | joystick_midi/main.py:34-38 | after a device-added update the id is mapped; existing entries keep their channels; a new id's channel is above all existing ones, and 0 on an empty map |
| Registry.MaxChannel | joystick_midi/main.py:37 | the loop computes `max(values, default=-1)`, that is, `Highest(values)` |
| Registry.AssignedKeepsInvariant | joystick_midi/main.py:33-38 | a device-added update keeps channels pairwise distinct and non-negative, and adds the id to the key set |
| Registry.ChannelRegistry.constructor | joystick_midi/main.py:20-21 | both maps start empty, and the invariant holds |
| Registry.ChannelRegistry.Add | joystick_midi/main.py:30-38 | overwrites the handle; a mapped id keeps the map unchanged and returns its channel; a new id gets a channel above all others; keys stay equal and channels distinct |
| Registry.ChannelRegistry.Remove | joystick_midi/main.py:40-43 | deletes exactly the id from both maps; an id that is not connected fails with the unknown-device fault and changes nothing |
| Registry.ChannelRegistry.Handle | joystick_midi/main.py:28-100 | hot-plug events update the maps as Add and Remove do and emit nothing; input events return `Translate`'s messages and leave both maps unchanged |
| Registry.ArrivalOrder | joystick_midi/main.py:34-38 | distinct ids added to an empty registry get channels 0, 1, 2, ... in arrival order |
| Registry.NextAfterRemove | joystick_midi/main.py:37-43 | removal never raises the next channel; it leaves it unchanged unless the removed id held the top channel, and then the freed channel or a lower one comes next |
| Registry.FreedTopChannel | joystick_midi/main.py:37-43 | after the device on the top channel t is removed, t is handed out next if and only if t is 0 or another device still holds channel t-1 |
| Registry.TopChannelReissued | joystick_midi/main.py:34-43 | with devices on channels 0 and 1, removing the second and adding a new id hands out channel 1 again |
| Registry.ReaddedIdGetsFreshChannel | joystick_midi/main.py:34-43 | with devices on channels 0 and 1, removing the first and adding it again gives it channel 2, not 0 |
| Registry.ReaddedChannel | joystick_midi/main.py:34-43 | a removed id that is added again gets the channel the next new device would have got, which differs from its old one, unless it held the top channel; then it gets that channel or a lower one |

## Left out

- Polling `pygame.event.get()`, `pygame.init`, `atexit`, and opening `joystick.Joystick(device_index)` with `get_instance_id`, `get_name` and `get_numaxes` belong to the input subsystem. A device-added event carries the id and the axis count instead.
- `util.open_midi_output`, `mido.get_output_names`, `mido.open_output`, `input()` and `output.send` are terminal and MIDI I/O. `Handle` returns the messages in send order instead of sending them.
- The `print` calls are diagnostic text. This includes the disconnect notice at main.py:44, which prints a stale `channel` variable, so the loop-local `channel` rebinding is not modelled.
- The `while True` loop and the `KeyboardInterrupt` handler (main.py:25-27, 102-103) are process control. A fault from `Handle` stands for the uncaught `KeyError` that ends the loop.
- `mido.Message` validates field ranges (channel 0-15, note 0-127 and so on). That is the MIDI library's job, so messages carry unbounded integers.
- Axis values are mathematical reals. IEEE floating-point rounding of the value and of `lerp` is not modelled.
- The `match event.type` (main.py:28) has no default case, so events of every other kind emit nothing and leave the registry as it was. `Event` has only the six handled kinds, so this case is not represented.
