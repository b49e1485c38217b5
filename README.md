# Wiren Board Modbus devices: register engine

A Dafny model of the device layer of a Home Assistant integration for Wiren
Board Modbus devices: the MDM3 three-channel dimmer and the MAP6S six-channel
power meter. The model covers

- the **register codec** that combines 16-bit register words into unsigned
  32-bit big-endian, signed 32-bit big-endian (two's complement) and unsigned
  64-bit little-endian integers (`RegisterCodec`, `codec.dfy`);
- the dimmer's **brightness conversion** between the host's 0..255 scale and
  the device's 0..100 percentage, Python's `round` computed over exact
  rationals (`Brightness`, `brightness.dfy`);
- the **dimmer** as a class with the re-entrancy flag, the on/off and
  brightness caches and the channel modes fixed at construction, its poll
  cycle and its command path (`Dimmer`, `dimmer.dfy`);
- the **power meter** as a class with the re-entrancy flag and the four
  six-slot caches, its poll cycle over four quantities and two register banks
  each, with the reversed channel order inside a bank, and its 1-based
  getters (`Meter`, `meter.dfy`);
- the derived **model and firmware strings** (`DeviceInfo`, `device_info.dfy`).

The Modbus hub is a collaborator (`Transport`, `transport.dfy`): a `Hub`
object keeps the log of every request of construction, a poll cycle or a
command, keyed by slave address, and what each read returns is a parameter
of the device method (`None` for "no reply"). So "makes no transport call" and "reads coils
before holding registers" are statements about the log.

Where the source can raise in the middle of a poll cycle (a reply with fewer
registers than requested makes `reply[c]` raise IndexError), the cycle's
`completed` result is false, the state is what the source leaves behind at
that point, and the flag is clear, as the source's `finally` block ensures.
The dimmer's copy loop stops at the first missing slot, so a short reply
overwrites the slots it does have. In a meter bank the first statement reads
the highest offset, so a short bank reply changes nothing in that bank.

A poll cycle can find the flag set only while another cycle of the same
device is suspended at one of its awaits. The model is sequential and lets
the flag be either value on entry: when it is set, `Update` returns at once.

Three behaviours of the code are easy to misread:

- the dimmer caches the raw 0..100 percentage and converts it on each
  `get_brightness`, not a 0..255 value;
- `round(b / 2.55)` has no clamp: brightness outside 0..255 gives a
  percentage outside 0..100 (`Brightness.EncodeBrightnessRange` proves the
  bounds for 0..255 only);
- the meter's 512 model-name quirk turns the slot into code point 0, not into
  an empty string.

## Model

| member | source | states |
|---|---|---|
| `RegisterCodec.FromU32Be` | custom_components/wirenboard/wb.py:304-309 | for 16-bit words the raw current value lies in [0, 2^32) |
| `RegisterCodec.FromS32Be` | custom_components/wirenboard/wb.py:311-321 | for 16-bit words the raw power value lies in [-2^31, 2^31) and is negative exactly when the high word is above 32767 |
| `RegisterCodec.FromU64Le` | custom_components/wirenboard/wb.py:323-331 | for 16-bit words the raw energy value lies in [0, 2^64) |
| `RegisterCodec.S32BeIsTwosComplement` | custom_components/wirenboard/wb.py:311-321 | the signed reading equals the unsigned one for high word <= 32767 and the unsigned one minus 2^32 otherwise |
| `RegisterCodec.S32BeCongruentU32Be` | custom_components/wirenboard/wb.py:304-321 | the signed and unsigned readings of the same words agree modulo 2^32 |
| `RegisterCodec.S32BeSignBoundary` | custom_components/wirenboard/wb.py:316-319 | for every low word, high word 32767 gives 2^31 - 2^16 + low (the top of the range) and 32768 gives -2^31 + low (the bottom); all-ones gives -1 |
| `RegisterCodec.U32BeRoundTrip` | custom_components/wirenboard/wb.py:304-309 | splitting any n in [0, 2^32) into high and low word and decoding gives n |
| `RegisterCodec.U32BeSplitsBack` | custom_components/wirenboard/wb.py:304-309 | decoding two 16-bit words and splitting the value gives the same words: the decoder is injective |
| `RegisterCodec.S32BeRoundTrip` | custom_components/wirenboard/wb.py:311-321 | two's-complement splitting of any n in [-2^31, 2^31) and decoding gives n |
| `RegisterCodec.S32BeSplitsBack` | custom_components/wirenboard/wb.py:311-321 | the signed decoder is injective on 16-bit word pairs |
| `RegisterCodec.U64LeRoundTrip` | custom_components/wirenboard/wb.py:323-331 | splitting any n in [0, 2^64) into four little-endian words and decoding gives n |
| `RegisterCodec.U64LeSplitsBack` | custom_components/wirenboard/wb.py:323-331 | decoding four 16-bit words and splitting the value gives the same words |
| `Brightness.RoundHalfEven` | custom_components/wirenboard/wb.py:146 | the result is an integer nearest n / d, the even one on a tie, as Python's `round` |
| `Brightness.EncodeBrightness` | custom_components/wirenboard/wb.py:145-148 | the register value is strictly nearest to brightness / 2.55 (no ties exist) |
| `Brightness.DecodeBrightness` | custom_components/wirenboard/wb.py:153-154 | the host brightness is nearest to 2.55 times the register value |
| `Brightness.EncodeBrightnessRange` | custom_components/wirenboard/wb.py:145-148 | brightness 0..255 writes 0..100, with 0 -> 0 and 255 -> 100 |
| `Brightness.DecodeBrightnessRange` | custom_components/wirenboard/wb.py:153-154 | register value 0..100 reports 0..255, with 0 -> 0 and 100 -> 255 |
| `Brightness.EncodeBrightnessMonotone` | custom_components/wirenboard/wb.py:146 | a larger host brightness never writes a smaller register value |
| `Brightness.EncodeDecodeRoundTrip` | custom_components/wirenboard/wb.py:146-154 | converting a register value to the host scale and back gives the register value |
| `Brightness.BrightnessReadBack` | custom_components/wirenboard/wb.py:146-154 | writing a host brightness and reading it back reports it to within 1 |
| `Brightness.DecodeBrightnessTies` | custom_components/wirenboard/wb.py:154 | 2.55 * raw is exactly a half if and only if raw = 10 (mod 20), and then the reported brightness is even |
| `Transport.Hub.Call` | custom_components/wirenboard/wb.py:66-121 | every read or write helper hands exactly one request to the hub, appended to its log |
| `DeviceInfo.ModelName` | custom_components/wirenboard/wb.py:44-52 | no model string when the read has no reply or fewer than 6 registers; otherwise every register is a code point, except that 512 in slot 5 becomes 0 |
| `DeviceInfo.ModelNameQuirk` | custom_components/wirenboard/wb.py:48-52 | for every six-register reply: 512 in the last slot becomes 0 with the other slots kept, and a reply with any other last value is kept whole |
| `DeviceInfo.FirmwareVersion` | custom_components/wirenboard/wb.py:54-60 | with both replies the text is firmware, then " (bootloader ", then bootloader, then ")"; without either there is none |
| `Dimmer.Refresh` | custom_components/wirenboard/wb.py:168-178 | no reply keeps the cache; a reply overwrites each slot it has a value for and leaves the rest |
| `Dimmer.CopyReply` | custom_components/wirenboard/wb.py:170-171 | the copy loop leaves the cache equal to `Refresh` of the reply and reports whether it ran out of values |
| `Dimmer.Mdm3Device.constructor` | custom_components/wirenboard/wb.py:184-190 | all channels start off, brightness 100, flag clear, modes copied from the mode registers |
| `Dimmer.NewMdm3Device` | custom_components/wirenboard/wb.py:183-190 | reads holding registers 50..52 once; no device without a full reply; otherwise channel c supports brightness iff its mode is not 2 |
| `Dimmer.Mdm3Device.GetBrightness` | custom_components/wirenboard/wb.py:153-154 | the reported brightness is nearest to 2.55 times the cached percentage |
| `Dimmer.Mdm3Device.Update` | custom_components/wirenboard/wb.py:159-180 | with the flag set nothing is read or changed; otherwise coils are read and copied, then (unless that raised) the brightness registers, the modes never change, and the flag is clear on every exit |
| `Dimmer.Mdm3Device.SetOnOff` | custom_components/wirenboard/wb.py:141-143 | writes coil 0 + channel with the value, one request and nothing else |
| `Dimmer.Mdm3Device.TurnOn` | custom_components/wirenboard/wb.py:133-135 | writes coil `channel` with true and caches that channel as on, the other channels and caches unchanged |
| `Dimmer.Mdm3Device.TurnOff` | custom_components/wirenboard/wb.py:137-139 | writes coil `channel` with false and caches that channel as off, the other channels and caches unchanged |
| `Dimmer.Mdm3Device.SetBrightness` | custom_components/wirenboard/wb.py:145-148 | writes holding register 0 + channel with the rounded percentage and leaves every cache unchanged |
| `Meter.SlotOffset` | custom_components/wirenboard/wb.py:234-236 | slot i of a bank starts (2 - i) * width words into the reply, inside the bank |
| `Meter.ApplyBank` | custom_components/wirenboard/wb.py:233-241 | a full bank reply sets the bank's three channels from the reversed slots; no reply or a short one keeps every entry |
| `Meter.GroupReads` | custom_components/wirenboard/wb.py:230-236 | each group reads bank A, then bank B, from the slave's input registers; each read asks for exactly the words up to the end of the first decode (at the highest offset), so every slot's decode lies inside the read |
| `Meter.GroupCacheChannel` | custom_components/wirenboard/wb.py:230-286 | after a group, 1-based channel c holds the decode of its bank's reply at offset (2 - (c - 1) mod 3) * width when that bank (and bank A) answered in full, else its old entry |
| `Meter.BankBWithoutReply` | custom_components/wirenboard/wb.py:233-241 | bank A answering and bank B silent updates channels 1..3 and keeps 4..6 |
| `Meter.GroupCacheKeepsReadings` | custom_components/wirenboard/wb.py:233-286 | a reading once set is never cleared by a poll |
| `Meter.GroupCacheWithoutReplies` | custom_components/wirenboard/wb.py:233-241 | a group without any reply leaves its cache as it was |
| `Meter.StoreBank` | custom_components/wirenboard/wb.py:233-236 | the three in-place assignments of a bank equal `ApplyBank` and report a short reply |
| `Meter.Map6sDevice.constructor` | custom_components/wirenboard/wb.py:209-215 | every entry of the four caches starts `None`, flag clear |
| `Meter.Map6sDevice.RefreshGroup` | custom_components/wirenboard/wb.py:230-241 | reads both banks, then stores bank A and, unless that raised, bank B |
| `Meter.Map6sDevice.Update` | custom_components/wirenboard/wb.py:221-289 | with the flag set nothing is read or changed; otherwise current, power, reactive power and energy groups run in this order, each only if no earlier one raised, each touching only its own cache, and the flag is clear on every exit |

The remaining members are one-line reads of a cache slot and have no contract
of their own: `Dimmer.Mdm3Device.GetState` (wb.py:150-151),
`Dimmer.Mdm3Device.SupportedBrightness` (wb.py:204-205) and the meter's
`GetCurrent`, `GetPower`, `GetRxPower`, `GetEnergy` (wb.py:291-301), which
read index `channel - 1`. What they return is fixed by the contracts of the
methods that fill the caches (`NewMdm3Device`, `Update`) and by
`Meter.GroupCacheChannel`, which is stated for 1-based channels. The same
lemma, with `BankBWithoutReply`, `GroupCacheKeepsReadings` and
`GroupCacheWithoutReplies`, is the contract of `Meter.GroupCache` (wb.py:230-286),
the six readings after one quantity's group. The two
scenario methods `Dimmer.MixedModesScenario` and `Meter.SilentBankScenario`
show what a client can derive from the contracts alone (modes 0, 2, 1 give
brightness support true, false, true).

## Left out

- Float scaling: the meter multiplies raw values by 2.44141e-7 (current, power, reactive power) or 1e-5 (energy) in floating point (wb.py:309, 321, 329); the caches here hold the exact raw integers.
- Brightness.DecodeBrightness: computed over exact rationals, where 2.55 * raw is a half for raw = 10 (mod 20) and rounds to even. The double nearest 2.55 is slightly below it (by 0.4 * 2^-51), so the source's float product is rounded. Within 0..100 it lands on the half at raw 10, 30 and 70 (26, 76 and 178, as here), but just below it at raw 50 and 90, where the source reports 127 and 229 and this model 128 and 230. Larger register values (up to 65535) are not compared.
- Brightness.DecodeBrightnessTies: its even-on-a-tie clause is a fact of the exact-rational model; the source's float product breaks it at raw 50 and 90 (odd 127 and 229), as the line above says.
- Brightness.EncodeBrightness: computed over exact rationals. For |brightness| < 2^40, which covers the 0..255 the light platform passes (light.py:66-68), the exact quotient 20b/51 is at least 1/102 from a half and the float error of `b / 2.55` is far below that, so the rounding agrees with the source. It does not agree for every integer: 2^54 and 2^54 + 2 become the same float in the source and get one register value there, but two different ones here.
- The Modbus transport (`async_pb_call`, `pb_call`): foreign code; modelled as a request log and replies passed in as parameters. `async_read_discrete_input` is never called by the devices and is not modelled.
- Logging of empty replies: no behaviour.
- Async scheduling and the poll coordinators in sensor.py and light.py: scheduling glue; the flag is a plain field.
- Home Assistant entities, device info and config flow (sensor.py, light.py, entity.py, config_flow.py): platform glue.
- Setup in `__init__.py` and `WirenBoard.pull_data` (wb.py:15-31): a comma-split integer list and a loop over constructors; note that `__init__.py` calls `WirenBoard` with three arguments where its constructor takes four, so setup raises TypeError as written.
- `WbLightDevice.supported_brightness` returning true (wb.py:130-131) is overridden by the only concrete dimmer and is not modelled separately; `short_name` and `channels` properties are constants (`Dimmer.Channels`).
- Dimmer.Mdm3Device.TurnOn: requires channel 0..2, the only channels the light platform uses; Python would still write the coil for another channel and then raise or, for -3..-1, index from the end.
- Dimmer.Mdm3Device.TurnOff: requires channel 0..2, for the same reason as TurnOn.
- Meter getters and `Dimmer.Mdm3Device.GetState`, `GetBrightness`, `SupportedBrightness` require a channel in range (1..6, resp. 0..2), the only ones the platforms use; Python negative indexing is not modelled.
- Strings: Python strings built with `chr` may hold lone surrogates, which Dafny's `char` excludes, so the model and firmware strings are sequences of integer code points.
- DeviceInfo.FirmwareVersion and DeviceInfo.ModelName take the register replies as parameters and do not record their reads in the hub log, since they are properties computed on demand outside a poll cycle.
