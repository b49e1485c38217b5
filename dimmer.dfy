/**
 * The three-channel dimmer (WbLightDevice specialised as WbMdm3Device).
 *
 * The device caches, per channel, the on/off state of coil `channel` and the
 * brightness percentage of holding register `channel`. A poll cycle
 * (`Update`) refreshes both caches from the hub; a flag, set for the duration
 * of a cycle, makes a cycle that starts while another is still waiting on the
 * bus return at once. Commands write one coil or one holding register.
 */
module Dimmer {
  import opened Wrappers
  import opened Transport
  import Brightness

  const Channels: nat := 3
  /** First coil: the on/off switch of channel 0. */
  const OnOffAddress: int := 0
  /** First holding register: the brightness percentage of channel 0. */
  const BrightnessAddress: int := 0
  /** First holding register of the per-channel mode, read once at construction. */
  const ModeAddress: int := 50
  /** The mode of a channel that can only switch, not dim. */
  const OnOffOnlyMode: int := 2
  /** Brightness percentage cached before the first poll. */
  const InitialBrightness: int := 100

  /**
   * The cache after copying a read's reply over it slot by slot: no reply keeps
   * the cache, a reply overwrites every slot it has a value for.
   */
  function Refresh<T>(cache: seq<T>, reply: Option<seq<T>>): (r: seq<T>)
    ensures |r| == |cache|
    ensures reply.None? ==> r == cache
    ensures reply.Some? && !Short(reply, |cache|) ==> r == reply.value[..|cache|]
    ensures reply.Some? ==> forall c :: 0 <= c < |cache| ==>
      r[c] == if c < |reply.value| then reply.value[c] else cache[c]
  {
    match reply
    case None => cache
    case Some(s) => if |s| >= |cache| then s[..|cache|] else s + cache[|s|..]
  }

  /**
   * The loop `for c in range(0, channels): cache[c] = reply[c]`, which stops
   * with IndexError where the reply runs out; `copied` is false in that case.
   */
  method CopyReply<T>(cache: array<T>, reply: seq<T>) returns (copied: bool)
    modifies cache
    ensures cache[..] == Refresh(old(cache[..]), Some(reply))
    ensures copied == !Short(Some(reply), cache.Length)
  {
    var n := if |reply| < cache.Length then |reply| else cache.Length;
    for c := 0 to n
      invariant forall k :: 0 <= k < c ==> cache[k] == reply[k]
      invariant forall k :: c <= k < cache.Length ==> cache[k] == old(cache[k])
    {
      cache[c] := reply[c];
    }
    copied := n == cache.Length;
  }

  class Mdm3Device {
    const hub: Hub
    const slave: int
    /** True while a poll cycle is between its first and its last step. */
    var callActive: bool
    const states: array<bool>
    const brightnesses: array<int>
    const modes: array<int>

    ghost predicate Valid()
      reads this
    {
      && states.Length == Channels
      && brightnesses.Length == Channels
      && modes.Length == Channels
      && brightnesses != modes
    }

    /** The object once the mode registers have been read. */
    constructor (hub: Hub, slave: int, modeRegisters: seq<int>)
      requires |modeRegisters| >= Channels
      ensures Valid() && fresh(states) && fresh(brightnesses) && fresh(modes)
      ensures this.hub == hub && this.slave == slave && !callActive
      ensures states[..] == [false, false, false]
      ensures brightnesses[..] == [InitialBrightness, InitialBrightness, InitialBrightness]
      ensures modes[..] == modeRegisters[..Channels]
    {
      this.hub := hub;
      this.slave := slave;
      callActive := false;
      var m := new int[Channels] [0, 0, 0];
      for c := 0 to Channels
        invariant forall k :: 0 <= k < c ==> m[k] == modeRegisters[k]
      {
        m[c] := modeRegisters[c];
      }
      modes := m;
      states := new bool[Channels] [false, false, false];
      brightnesses := new int[Channels] [InitialBrightness, InitialBrightness, InitialBrightness];
    }

    /** Channel `channel` can dim unless its mode, read at construction, is 2. */
    function SupportedBrightness(channel: int): bool
      reads this, modes
      requires Valid() && 0 <= channel < Channels
    {
      modes[channel] != OnOffOnlyMode
    }

    function GetState(channel: int): bool
      reads this, states
      requires Valid() && 0 <= channel < Channels
    {
      states[channel]
    }

    /** The cached percentage on the host's 0..255 scale: the integer nearest 2.55 times it. */
    function GetBrightness(channel: int): (b: int)
      reads this, brightnesses
      requires Valid() && 0 <= channel < Channels
      ensures 2 * Brightness.Abs(100 * b - 255 * brightnesses[channel]) <= 100
    {
      Brightness.DecodeBrightness(brightnesses[channel])
    }

    /**
     * One poll cycle. `coils` and `holding` are what the hub returns for the
     * coil read and for the holding-register read; `completed` is false when
     * the cycle ends by raising IndexError on a short reply.
     */
    method Update(coils: Option<seq<bool>>, holding: Option<seq<int>>) returns (completed: bool)
      requires Valid()
      modifies this, states, brightnesses, hub
      ensures Valid() && unchanged(modes)
      // a cycle already in flight: nothing is read and nothing changes
      ensures old(callActive) ==>
        && callActive && completed
        && unchanged(states) && unchanged(brightnesses) && hub.log == old(hub.log)
      // otherwise: coils first, then the brightness registers; the flag is clear on every exit
      ensures !old(callActive) ==>
        && !callActive
        && states[..] == Refresh(old(states[..]), coils)
        && brightnesses[..] == (if Short(coils, Channels) then old(brightnesses[..])
                                else Refresh(old(brightnesses[..]), holding))
        && hub.log == old(hub.log) + [ReadCoils(slave, OnOffAddress, Channels)]
                      + (if Short(coils, Channels) then [] else [ReadHolding(slave, BrightnessAddress, Channels)])
        && completed == (!Short(coils, Channels) && !Short(holding, Channels))
    {
      if callActive {
        return true;
      }
      callActive := true;
      hub.Call(ReadCoils(slave, OnOffAddress, Channels));
      var coilsCopied := true;
      if coils.Some? {
        coilsCopied := CopyReply(states, coils.value);
      }
      completed := coilsCopied;
      if coilsCopied {
        hub.Call(ReadHolding(slave, BrightnessAddress, Channels));
        if holding.Some? {
          completed := CopyReply(brightnesses, holding.value);
        }
      }
      callActive := false;
    }

    /** Write coil `channel` with `value`. */
    method SetOnOff(channel: int, value: bool)
      requires Valid()
      modifies hub
      ensures hub.log == old(hub.log) + [WriteCoil(slave, OnOffAddress + channel, value)]
    {
      hub.Call(WriteCoil(slave, OnOffAddress + channel, value));
    }

    /** Switch a channel on and record it as on without waiting for the next poll. */
    method TurnOn(channel: int)
      requires Valid() && 0 <= channel < Channels
      modifies states, hub
      ensures hub.log == old(hub.log) + [WriteCoil(slave, OnOffAddress + channel, true)]
      ensures states[..] == old(states[..])[channel := true]
      ensures unchanged(this) && unchanged(brightnesses) && unchanged(modes)
    {
      SetOnOff(channel, true);
      states[channel] := true;
    }

    /** Switch a channel off and record it as off without waiting for the next poll. */
    method TurnOff(channel: int)
      requires Valid() && 0 <= channel < Channels
      modifies states, hub
      ensures hub.log == old(hub.log) + [WriteCoil(slave, OnOffAddress + channel, false)]
      ensures states[..] == old(states[..])[channel := false]
      ensures unchanged(this) && unchanged(brightnesses) && unchanged(modes)
    {
      SetOnOff(channel, false);
      states[channel] := false;
    }

    /**
     * Write the percentage for a host brightness; the cached brightness is
     * left for the next poll to refresh.
     */
    method SetBrightness(channel: int, brightness: int)
      requires Valid()
      modifies hub
      ensures hub.log == old(hub.log) + [WriteRegister(slave, BrightnessAddress + channel, Brightness.EncodeBrightness(brightness))]
      ensures unchanged(this) && unchanged(states) && unchanged(brightnesses) && unchanged(modes)
    {
      var adjusted := Brightness.EncodeBrightness(brightness);
      hub.Call(WriteRegister(slave, BrightnessAddress + channel, adjusted));
    }
  }

  /**
   * Construction: the one-time read of the three mode registers. `None` where
   * the source's constructor raises, because the read got no reply or too few
   * registers.
   */
  method NewMdm3Device(hub: Hub, slave: int, modeReply: Option<seq<int>>) returns (device: Option<Mdm3Device>)
    modifies hub
    ensures hub.log == old(hub.log) + [ReadHolding(slave, ModeAddress, Channels)]
    ensures device.Some? <==> modeReply.Some? && !Short(modeReply, Channels)
    ensures device.Some? ==>
      var d := device.value;
      && fresh(d) && fresh(d.states) && fresh(d.brightnesses) && fresh(d.modes)
      && d.Valid() && d.hub == hub && d.slave == slave && !d.callActive
      && d.states[..] == [false, false, false]
      && d.brightnesses[..] == [InitialBrightness, InitialBrightness, InitialBrightness]
      && forall c :: 0 <= c < Channels ==> (d.SupportedBrightness(c) <==> modeReply.value[c] != OnOffOnlyMode)
  {
    hub.Call(ReadHolding(slave, ModeAddress, Channels));
    if modeReply.None? || |modeReply.value| < Channels {
      return None;
    }
    var d := new Mdm3Device(hub, slave, modeReply.value);
    return Some(d);
  }

  /** A dimmer whose mode registers read 0, 2, 1, driven through a few commands and polls. */
  method MixedModesScenario()
  {
    var hub := new Hub();
    var created := NewMdm3Device(hub, 7, Some([0, 2, 1]));
    var d := created.value;
    assert d.SupportedBrightness(0) && !d.SupportedBrightness(1) && d.SupportedBrightness(2);

    d.TurnOn(1);
    assert !d.GetState(0) && d.GetState(1) && !d.GetState(2);
    d.SetBrightness(0, 255);
    assert hub.log[|hub.log| - 1] == WriteRegister(7, 0, 100) by {
      Brightness.EncodeBrightnessRange(255);
    }

    // no reply from the coils: only the brightness cache moves
    var ok := d.Update(None, Some([40, 0, 100]));
    assert ok && !d.callActive && d.GetState(1);
    assert d.brightnesses[..] == [40, 0, 100];
    assert d.GetBrightness(2) == 255 by {
      Brightness.DecodeBrightnessRange(100);
    }

    // a cycle that starts while another is in flight reads nothing
    var before := hub.log;
    d.callActive := true;
    ok := d.Update(Some([false, false, false]), Some([0, 0, 0]));
    assert hub.log == before && d.GetState(1) && d.callActive;
  }
}
