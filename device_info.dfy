/**
 * The derived, read-only properties every device has: the model name and
 * firmware version, decoded from input registers that hold one character
 * code each, and the manufacturer.
 *
 * A Python string built with `chr` is a sequence of code points and may hold
 * any value 0..65535 a register can carry, lone surrogates included; Dafny's
 * `char` excludes surrogates, so these strings are kept as code points.
 */
module DeviceInfo {
  import opened Wrappers

  type CodePoints = seq<int>

  /** Input registers holding the model name. */
  const ModelAddress: int := 200
  const ModelCount: nat := 6
  /** Slot of the model name where the power meter reports 512 for "no character". */
  const ModelQuirkSlot: nat := 5
  const ModelQuirkValue: int := 512
  /** Input registers holding the firmware and the bootloader versions. */
  const FirmwareAddress: int := 250
  const FirmwareCount: nat := 15
  const BootloaderAddress: int := 330
  const BootloaderCount: nat := 5

  const Manufacturer: string := "wirenboard"
  /** The text between the firmware and the bootloader version. */
  const BootloaderOpen: CodePoints := Codes(" (bootloader ")
  const BootloaderClose: int := ')' as int

  /** The code points of a Dafny string. */
  function Codes(s: string): (r: CodePoints)
    ensures |r| == |s| && forall i :: 0 <= i < |s| ==> r[i] == s[i] as int
  {
    if s == [] then [] else [s[0] as int] + Codes(s[1..])
  }

  /**
   * The model name from the reply of the model-register read. `None` where
   * Python raises: no reply (indexing `None`) or fewer than six registers.
   */
  function ModelName(reply: Option<seq<int>>): (r: Option<CodePoints>)
    ensures r.Some? <==> reply.Some? && |reply.value| > ModelQuirkSlot
    ensures r.Some? ==> |r.value| == |reply.value|
    ensures r.Some? ==> forall i :: 0 <= i < |r.value| && i != ModelQuirkSlot ==> r.value[i] == reply.value[i]
    ensures r.Some? ==> r.value[ModelQuirkSlot] == (if reply.value[ModelQuirkSlot] == ModelQuirkValue then 0 else reply.value[ModelQuirkSlot])
  {
    match reply
    case None => None
    case Some(regs) =>
      if |regs| <= ModelQuirkSlot then None
      else if regs[ModelQuirkSlot] == ModelQuirkValue then Some(regs[ModelQuirkSlot := 0])
      else Some(regs)
  }

  /**
   * `"<firmware> (bootloader <bootloader>)"` from the replies of the two reads;
   * `None` where Python raises because a read got no reply.
   */
  function FirmwareVersion(firmware: Option<seq<int>>, bootloader: Option<seq<int>>): (r: Option<CodePoints>)
    ensures r.Some? <==> firmware.Some? && bootloader.Some?
    ensures r.Some? ==>
      var fw, bl, open := firmware.value, bootloader.value, BootloaderOpen;
      && |r.value| == |fw| + |open| + |bl| + 1
      && r.value[..|fw|] == fw
      && r.value[|fw|..|fw| + |open|] == open
      && r.value[|fw| + |open|..|fw| + |open| + |bl|] == bl
      && r.value[|r.value| - 1] == BootloaderClose
  {
    if firmware.None? || bootloader.None? then None
    else
      var s := firmware.value + BootloaderOpen + bootloader.value + [BootloaderClose];
      ConcatSlices(firmware.value, BootloaderOpen, bootloader.value, [BootloaderClose]);
      Some(s)
  }

  lemma ConcatSlices(a: seq<int>, b: seq<int>, c: seq<int>, d: seq<int>)
    ensures var s := a + b + c + d;
      && |s| == |a| + |b| + |c| + |d|
      && s[..|a|] == a
      && s[|a|..|a| + |b|] == b
      && s[|a| + |b|..|a| + |b| + |c|] == c
      && s[|a| + |b| + |c|..] == d
  {
    var s := a + b + c + d;
    assert s == ((a + b) + c) + d;
    assert s[..|a| + |b| + |c|] == (a + b) + c;
    assert s[..|a| + |b|] == a + b;
  }

  /**
   * The meter quirk, for every six-register reply: a 512 in the last slot
   * becomes code point 0, and a reply with any other value there is kept whole.
   */
  lemma ModelNameQuirk(regs: seq<int>, v: int)
    requires |regs| == ModelCount
    ensures ModelName(Some(regs[ModelQuirkSlot := ModelQuirkValue])) == Some(regs[ModelQuirkSlot := 0])
    ensures v != ModelQuirkValue ==> ModelName(Some(regs[ModelQuirkSlot := v])) == Some(regs[ModelQuirkSlot := v])
  {
    assert regs[ModelQuirkSlot := ModelQuirkValue][ModelQuirkSlot := 0] == regs[ModelQuirkSlot := 0];
  }
}
