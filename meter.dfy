/**
 * The six-channel power meter (WbMap6sDevice).
 *
 * Each of four quantities (current, power, reactive power, energy) lives in
 * two banks of input registers, channels 1..3 in bank A and 4..6 in bank B.
 * Within a bank the channels are stored in reverse: the first channel of the
 * bank occupies the last slot. A poll cycle reads both banks of each quantity
 * in turn and decodes every bank that answered into the device's cache; a
 * bank without a reply keeps its three cached readings. The same re-entrancy
 * flag as the dimmer's makes an overlapping cycle return at once.
 *
 * Cached readings are the raw integers of the register codec; the source
 * multiplies them by a float scale factor, which this model leaves out.
 */
module Meter {
  import opened Wrappers
  import opened Transport
  import opened RegisterCodec

  const Channels: nat := 6
  const ChannelsPerBank: nat := 3
  /** The cache of a fresh device: no quantity has been read yet. */
  const NoReadings: seq<Option<int>> := [None, None, None, None, None, None]

  datatype Quantity = Current | Power | RxPower | Energy {

    /** First input register of the bank holding channels 1..3. */
    function BankA(): int {
      match this
      case Current => 5142
      case Power => 4866
      case RxPower => 4874
      case Energy => 4612
    }

    /** First input register of the bank holding channels 4..6. */
    function BankB(): int {
      match this
      case Current => 9238
      case Power => 8962
      case RxPower => 8970
      case Energy => 8708
    }

    /** Register words per channel. */
    function Width(): nat {
      match this
      case Energy => 4
      case _ => 2
    }

    /** Register words per bank, the count each bank read asks for. */
    function BankSize(): nat {
      match this
      case Energy => 12
      case _ => 6
    }

    /** The raw reading of the channel whose words start at `offset`. */
    function Decode(ws: seq<int>, offset: nat): int
      requires offset + Width() <= |ws|
    {
      match this
      case Current => FromU32Be(ws, offset)
      case Power => FromS32Be(ws, offset)
      case RxPower => FromS32Be(ws, offset)
      case Energy => FromU64Le(ws, offset)
    }
  }

  /** The replies of one quantity's two bank reads. */
  datatype BankReplies = BankReplies(bankA: Option<seq<int>>, bankB: Option<seq<int>>)

  /**
   * Where slot `slot` (0..2) of a bank starts in the bank's reply: the slots
   * are stored last to first.
   */
  function SlotOffset(q: Quantity, slot: nat): (offset: nat)
    requires slot < ChannelsPerBank
    ensures offset == (ChannelsPerBank - 1 - slot) * q.Width()
    ensures offset + q.Width() <= q.BankSize()
  {
    match q
    case Energy => (ChannelsPerBank - 1 - slot) * 4
    case _ => (ChannelsPerBank - 1 - slot) * 2
  }

  /**
   * The cache after decoding one bank's reply into channels first..first+2. A
   * reply shorter than the bank changes nothing: the first decode reads the
   * words at the highest offset and raises IndexError.
   */
  function ApplyBank(cache: seq<Option<int>>, first: nat, q: Quantity, reply: Option<seq<int>>): (r: seq<Option<int>>)
    requires first + ChannelsPerBank <= |cache|
    ensures |r| == |cache|
    ensures forall j :: 0 <= j < |cache| ==>
      r[j] == (if reply.Some? && !Short(reply, q.BankSize()) && first <= j < first + ChannelsPerBank
               then Some(q.Decode(reply.value, SlotOffset(q, j - first)))
               else cache[j])
  {
    if reply.None? || |reply.value| < q.BankSize() then cache
    else
      var ws := reply.value;
      cache[first := Some(q.Decode(ws, SlotOffset(q, 0)))]
           [first + 1 := Some(q.Decode(ws, SlotOffset(q, 1)))]
           [first + 2 := Some(q.Decode(ws, SlotOffset(q, 2)))]
  }

  /** Whether a quantity's group of statements runs to its end without raising. */
  predicate GroupOk(q: Quantity, replies: BankReplies) {
    !Short(replies.bankA, q.BankSize()) && !Short(replies.bankB, q.BankSize())
  }

  /**
   * One quantity's cache after its group: bank A is decoded first, and a
   * malformed bank A raises before bank B is looked at.
   */
  function GroupCache(cache: seq<Option<int>>, q: Quantity, replies: BankReplies): (r: seq<Option<int>>)
    requires |cache| == Channels
    ensures |r| == Channels
  {
    if Short(replies.bankA, q.BankSize()) then cache
    else ApplyBank(ApplyBank(cache, 0, q, replies.bankA), ChannelsPerBank, q, replies.bankB)
  }

  /**
   * The two reads one quantity's group makes, bank A first. Each asks for
   * exactly the words up to the end of the bank's first decode, the one at
   * the highest offset, so every slot's decode lies inside what was asked for.
   */
  function GroupReads(slave: int, q: Quantity): (rs: seq<Request>)
    ensures |rs| == 2 && rs[0].ReadInputs? && rs[1].ReadInputs?
    ensures rs[0].slave == rs[1].slave == slave
    ensures rs[0].address == q.BankA() && rs[1].address == q.BankB()
    ensures rs[0].count == rs[1].count == SlotOffset(q, 0) + q.Width()
    ensures forall slot :: 0 <= slot < ChannelsPerBank ==> SlotOffset(q, slot) + q.Width() <= rs[0].count
  {
    [ReadInputs(slave, q.BankA(), q.BankSize()), ReadInputs(slave, q.BankB(), q.BankSize())]
  }

  // ---------------------------------------------------------------------------
  // Properties of one quantity's group
  // ---------------------------------------------------------------------------

  /**
   * The reading of 1-based channel `channel` after a group: it is decoded
   * from its bank's reply at offset (2 - (channel - 1) % 3) * width, so
   * channels 1 and 4 come from the last slot, and only when its bank (and
   * bank A, which is decoded first) answered in full.
   */
  lemma GroupCacheChannel(cache: seq<Option<int>>, q: Quantity, replies: BankReplies, channel: int)
    requires |cache| == Channels && 1 <= channel <= Channels
    ensures
      var bank := if channel <= ChannelsPerBank then replies.bankA else replies.bankB;
      var slot := (channel - 1) % ChannelsPerBank;
      GroupCache(cache, q, replies)[channel - 1] ==
        if !Short(replies.bankA, q.BankSize()) && bank.Some? && !Short(bank, q.BankSize())
        then Some(q.Decode(bank.value, (ChannelsPerBank - 1 - slot) * q.Width()))
        else cache[channel - 1]
  {
    var j := channel - 1;
    if !Short(replies.bankA, q.BankSize()) {
      var mid := ApplyBank(cache, 0, q, replies.bankA);
      assert mid[j] == if j < ChannelsPerBank && replies.bankA.Some? && !Short(replies.bankA, q.BankSize())
                       then Some(q.Decode(replies.bankA.value, SlotOffset(q, j)))
                       else cache[j];
    }
  }

  /**
   * Bank independence: when bank A answers in full and bank B does not answer,
   * channels 1..3 take bank A's readings and channels 4..6 keep theirs.
   */
  lemma BankBWithoutReply(cache: seq<Option<int>>, q: Quantity, ws: seq<int>)
    requires |cache| == Channels && |ws| >= q.BankSize()
    ensures var r := GroupCache(cache, q, BankReplies(Some(ws), None));
      && r[ChannelsPerBank..] == cache[ChannelsPerBank..]
      && r[..ChannelsPerBank] == [Some(q.Decode(ws, SlotOffset(q, 0))), Some(q.Decode(ws, SlotOffset(q, 1))), Some(q.Decode(ws, SlotOffset(q, 2)))]
  {
    var r := GroupCache(cache, q, BankReplies(Some(ws), None));
    var mid := ApplyBank(cache, 0, q, Some(ws));
    assert r == mid;
    assert r[..ChannelsPerBank] == [mid[0], mid[1], mid[2]];
  }

  /** A group never clears a reading: cached values are last-known-good. */
  lemma GroupCacheKeepsReadings(cache: seq<Option<int>>, q: Quantity, replies: BankReplies, j: nat)
    requires |cache| == Channels && j < Channels && cache[j].Some?
    ensures GroupCache(cache, q, replies)[j].Some?
  {
    if !Short(replies.bankA, q.BankSize()) {
      var mid := ApplyBank(cache, 0, q, replies.bankA);
      assert mid[j].Some?;
    }
  }

  /** A group whose two banks got no reply leaves the cache as it was. */
  lemma GroupCacheWithoutReplies(cache: seq<Option<int>>, q: Quantity)
    requires |cache| == Channels
    ensures GroupCache(cache, q, BankReplies(None, None)) == cache
  {
  }

  /** Decoding one bank's reply into a cache in place, as the three statements of a bank do. */
  method StoreBank(cache: array<Option<int>>, first: nat, q: Quantity, reply: Option<seq<int>>) returns (ok: bool)
    requires first + ChannelsPerBank <= cache.Length
    modifies cache
    ensures cache[..] == ApplyBank(old(cache[..]), first, q, reply)
    ensures ok == !Short(reply, q.BankSize())
  {
    ok := true;
    if reply.Some? {
      var ws := reply.value;
      if |ws| < q.BankSize() {
        return false;
      }
      cache[first] := Some(q.Decode(ws, SlotOffset(q, 0)));
      cache[first + 1] := Some(q.Decode(ws, SlotOffset(q, 1)));
      cache[first + 2] := Some(q.Decode(ws, SlotOffset(q, 2)));
    }
  }

  class Map6sDevice {
    const hub: Hub
    const slave: int
    /** True while a poll cycle is between its first and its last step. */
    var callActive: bool
    const current: array<Option<int>>
    const power: array<Option<int>>
    const rxPower: array<Option<int>>
    const energy: array<Option<int>>

    ghost predicate Valid()
      reads this
    {
      && current.Length == Channels && power.Length == Channels
      && rxPower.Length == Channels && energy.Length == Channels
      && current != power && current != rxPower && current != energy
      && power != rxPower && power != energy && rxPower != energy
    }

    constructor (hub: Hub, slave: int)
      ensures Valid() && fresh(current) && fresh(power) && fresh(rxPower) && fresh(energy)
      ensures this.hub == hub && this.slave == slave && !callActive
      ensures current[..] == NoReadings && power[..] == NoReadings
      ensures rxPower[..] == NoReadings && energy[..] == NoReadings
    {
      this.hub := hub;
      this.slave := slave;
      callActive := false;
      current := new Option<int>[Channels] [None, None, None, None, None, None];
      power := new Option<int>[Channels] [None, None, None, None, None, None];
      rxPower := new Option<int>[Channels] [None, None, None, None, None, None];
      energy := new Option<int>[Channels] [None, None, None, None, None, None];
    }

    /** One quantity's group: read both banks, then decode bank A, then bank B. */
    method RefreshGroup(cache: array<Option<int>>, q: Quantity, replies: BankReplies) returns (ok: bool)
      requires cache.Length == Channels
      modifies cache, hub
      ensures cache[..] == GroupCache(old(cache[..]), q, replies)
      ensures hub.log == old(hub.log) + GroupReads(slave, q)
      ensures ok == GroupOk(q, replies)
    {
      hub.Call(ReadInputs(slave, q.BankA(), q.BankSize()));
      hub.Call(ReadInputs(slave, q.BankB(), q.BankSize()));
      ok := StoreBank(cache, 0, q, replies.bankA);
      if ok {
        ok := StoreBank(cache, ChannelsPerBank, q, replies.bankB);
      }
    }

    /**
     * One poll cycle over current, power, reactive power and energy, in that
     * order; `completed` is false when a group raises on a malformed reply,
     * which ends the cycle.
     */
    method Update(currentReplies: BankReplies, powerReplies: BankReplies,
                  rxPowerReplies: BankReplies, energyReplies: BankReplies) returns (completed: bool)
      requires Valid()
      modifies this, current, power, rxPower, energy, hub
      ensures Valid()
      // a cycle already in flight: nothing is read and nothing changes
      ensures old(callActive) ==>
        && callActive && completed && hub.log == old(hub.log)
        && unchanged(current) && unchanged(power) && unchanged(rxPower) && unchanged(energy)
      // otherwise: the four groups in order, each only if the ones before it did not raise
      ensures !old(callActive) ==>
        var okC, okP, okR := GroupOk(Current, currentReplies), GroupOk(Power, powerReplies), GroupOk(RxPower, rxPowerReplies);
        && !callActive
        && current[..] == GroupCache(old(current[..]), Current, currentReplies)
        && power[..] == (if okC then GroupCache(old(power[..]), Power, powerReplies) else old(power[..]))
        && rxPower[..] == (if okC && okP then GroupCache(old(rxPower[..]), RxPower, rxPowerReplies) else old(rxPower[..]))
        && energy[..] == (if okC && okP && okR then GroupCache(old(energy[..]), Energy, energyReplies) else old(energy[..]))
        && hub.log == old(hub.log) + GroupReads(slave, Current)
                      + (if okC then GroupReads(slave, Power) else [])
                      + (if okC && okP then GroupReads(slave, RxPower) else [])
                      + (if okC && okP && okR then GroupReads(slave, Energy) else [])
        && completed == (okC && okP && okR && GroupOk(Energy, energyReplies))
    {
      if callActive {
        return true;
      }
      callActive := true;
      completed := RefreshGroup(current, Current, currentReplies);
      if completed {
        completed := RefreshGroup(power, Power, powerReplies);
      }
      if completed {
        completed := RefreshGroup(rxPower, RxPower, rxPowerReplies);
      }
      if completed {
        completed := RefreshGroup(energy, Energy, energyReplies);
      }
      callActive := false;
    }

    /** Channels are numbered 1..6 for callers. */
    function GetCurrent(channel: int): Option<int>
      reads this, current
      requires Valid() && 1 <= channel <= Channels
    {
      current[channel - 1]
    }

    function GetPower(channel: int): Option<int>
      reads this, power
      requires Valid() && 1 <= channel <= Channels
    {
      power[channel - 1]
    }

    function GetRxPower(channel: int): Option<int>
      reads this, rxPower
      requires Valid() && 1 <= channel <= Channels
    {
      rxPower[channel - 1]
    }

    function GetEnergy(channel: int): Option<int>
      reads this, energy
      requires Valid() && 1 <= channel <= Channels
    {
      energy[channel - 1]
    }
  }

  /** A meter whose current bank B stays silent while every other bank answers. */
  method SilentBankScenario()
  {
    var hub := new Hub();
    var m := new Map6sDevice(hub, 12);
    assert m.GetCurrent(4) == None;

    // current words: slot 0 = channel 3, slot 1 = channel 2, slot 2 = channel 1
    var currentA := [0, 3, 0, 2, 1, 1];
    var power := BankReplies(Some([0xFFFF, 0xFFFF, 0, 0, 0x8000, 0]), Some([0, 0, 0, 0, 0, 0]));
    var zeros := Some([0, 0, 0, 0, 0, 0, 0, 0, 0, 0, 0, 0]);
    var ok := m.Update(BankReplies(Some(currentA), None), power, BankReplies(None, None), BankReplies(zeros, zeros));
    assert ok && !m.callActive && |hub.log| == 8;
    assert m.GetCurrent(1) == Some(0x1_0001) && m.GetCurrent(2) == Some(2) && m.GetCurrent(3) == Some(3);
    assert m.GetCurrent(4) == None && m.GetRxPower(1) == None;
    assert m.GetPower(1) == Some(-0x8000_0000) && m.GetPower(3) == Some(-1);
    assert m.GetEnergy(6) == Some(0);
  }
}
