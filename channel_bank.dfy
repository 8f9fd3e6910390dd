/** The channel bank as a value: one 16-bit pulse-width slot per control
    channel. These functions specify what the controller's accessors read
    and write; every index is checked against CH_MAX_CONTROL. */
module ChannelBank {
  import opened Config

  predicate IsBank(bank: seq<uint16>) { |bank| == CH_MAX_CONTROL }

  /** `getChannel`: the slot's value, or 0 for an index past the bank. */
  function Get(bank: seq<uint16>, ch: nat): uint16
    requires IsBank(bank)
  {
    if ch < CH_MAX_CONTROL then bank[ch] else 0
  }

  /** `getChannelIsCMD`: the slot holds a command, i.e. a value above PPM_MAX_COMMAND. */
  predicate IsCommand(bank: seq<uint16>, ch: nat)
    requires IsBank(bank)
  {
    ch < CH_MAX_CONTROL && bank[ch] > PPM_MAX_COMMAND
  }

  /** `setChannel`: an index past the bank is ignored. */
  function Set(bank: seq<uint16>, ch: nat, value: uint16): (r: seq<uint16>)
    requires IsBank(bank)
    ensures IsBank(r)
  {
    if ch < CH_MAX_CONTROL then bank[ch := value] else bank
  }

  /** The bank right after `reset`: every slot at the midpoint except the
      throttle, which is at its minimum so that nothing commands motion. */
  function ResetBank(): (r: seq<uint16>)
    ensures IsBank(r)
  {
    seq(CH_MAX_CONTROL, i requires 0 <= i < CH_MAX_CONTROL => if i == CH_THROTTLE then PPM_MIN else PPM_MID)
  }

  /** A write to an in-range slot is read back; every other slot keeps its value. */
  lemma GetAfterSet(bank: seq<uint16>, ch: nat, value: uint16, other: nat)
    requires IsBank(bank)
    requires ch < CH_MAX_CONTROL
    ensures Get(Set(bank, ch, value), ch) == value
    ensures other != ch ==> Get(Set(bank, ch, value), other) == Get(bank, other)
  {
  }

  /** A write past the bank changes nothing, and a read past it yields 0. */
  lemma OutOfRange(bank: seq<uint16>, ch: nat, value: uint16)
    requires IsBank(bank)
    requires CH_MAX_CONTROL <= ch
    ensures Set(bank, ch, value) == bank
    ensures Get(bank, ch) == 0
    ensures !IsCommand(bank, ch)
  {
  }

  /** After an in-range write, the slot is a command exactly when the written value exceeds the threshold. */
  lemma IsCommandAfterSet(bank: seq<uint16>, ch: nat, value: uint16)
    requires IsBank(bank)
    requires ch < CH_MAX_CONTROL
    ensures IsCommand(Set(bank, ch, value), ch) <==> value > PPM_MAX_COMMAND
  {
  }

  /** The reset bank, slot by slot: throttle at PPM_MIN, the rest at PPM_MID.
      It does not depend on the bank it replaces, so resetting twice gives the same bank. */
  lemma ResetBankSlots(ch: nat)
    requires ch < CH_MAX_CONTROL
    ensures Get(ResetBank(), ch) == if ch == CH_THROTTLE then PPM_MIN else PPM_MID
  {
  }
}
