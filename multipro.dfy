/** The multi-protocol controller: owns the channel bank, the protocol
    selector, the channel-count limit, the scheduling deadline and the
    transmitter identity, and drives the radio driver and the active
    protocol plugin, whose calls are recorded as events. */
module Multipro {
  import opened Config
  import opened Eeprom
  import opened Identity
  import opened Schedule
  import ChannelBank

  /** A call the controller makes into code outside it. */
  datatype Event =
    | RadioReset              // NRF24L01_Reset()
    | RadioInitialize         // NRF24L01_Initialize()
    | PluginInit(p: Protocol) // protocols[p]->init()
    | PluginBind(p: Protocol) // protocols[p]->bind()
    | PluginLoop(p: Protocol) // protocols[p]->loop()

  /** The calls of `initRF` followed by those of `initProt` for protocol `p`. */
  function ResetEvents(p: Protocol): seq<Event>
  {
    [RadioReset, RadioInitialize, PluginInit(p), PluginBind(p)]
  }

  /** The protocol `begin` selects from the persisted byte: out-of-range
      values are clamped to the last protocol. */
  function LoadProtocol(b: uint8): (p: Protocol)
    ensures b < PROTO_END ==> p == b
    ensures PROTO_END <= b ==> p == PROTO_END - 1
  {
    Constrain(b, 0, PROTO_END - 1)
  }

  /** The protocol chosen by a switch is the one the next start-up loads,
      whatever identity handling that start-up performs first. */
  lemma ProtocolSurvivesRestart(s: Store, p: Protocol, rand: seq<nat>)
    requires |rand| >= 4
    ensures LoadProtocol(Read(StoreAfterTxid(Update(s, EE_PROTOCOL_ID, p), false, rand), EE_PROTOCOL_ID)) == p
  {
    TxidPersisted(Update(s, EE_PROTOCOL_ID, p), false, rand);
  }

  class Controller {
    /** The channel bank. */
    var ppm: array<uint16>
    /** `channel_num`. */
    var channelNum: uint8
    /** `current_protocol`. */
    var currentProtocol: Protocol
    /** The deadline kept by `loop()` between calls. */
    var next: nat
    /** The transmitter identity shared with the plugins. */
    var transmitterId: array<uint8>
    /** The persistent store. */
    var eeprom: Store
    /** Calls made so far into the radio driver and the plugins. */
    var trace: seq<Event>

    ghost predicate Valid()
      reads this
    {
      ppm.Length == CH_MAX_CONTROL && transmitterId.Length == 4 && channelNum <= CH_MAX_CONTROL
    }

    /** The controller before `begin`: static storage is zero-filled. */
    constructor (store: Store)
      ensures Valid() && fresh(ppm) && fresh(transmitterId)
      ensures forall i :: 0 <= i < ppm.Length ==> ppm[i] == 0
      ensures transmitterId[..] == [0, 0, 0, 0]
      ensures channelNum == 0 && currentProtocol == 0 && next == 0
      ensures eeprom == store && trace == []
    {
      ppm := new uint16[CH_MAX_CONTROL](_ => 0);
      transmitterId := new uint8[4](_ => 0);
      channelNum := 0;
      currentProtocol := 0;
      next := 0;
      eeprom := store;
      trace := [];
    }

    /** Start-up: load or create the identity, lift the channel-count limit,
        load the protocol (clamped) and reset. */
    method Begin(rand: seq<nat>)
      requires Valid()
      requires |rand| >= 4
      modifies this`eeprom, this`channelNum, this`currentProtocol, this`trace, ppm, transmitterId
      ensures Valid()
      ensures transmitterId[..] == NewId(old(eeprom), false, rand)
      ensures eeprom == StoreAfterTxid(old(eeprom), false, rand)
      ensures channelNum == CH_MAX_CONTROL
      ensures currentProtocol == LoadProtocol(Read(old(eeprom), EE_PROTOCOL_ID))
      ensures ppm[..] == ChannelBank.ResetBank()
      ensures trace == old(trace) + ResetEvents(currentProtocol)
    {
      SetTxid(false, rand);
      TxidPersisted(old(eeprom), false, rand);
      channelNum := CH_MAX_CONTROL;
      currentProtocol := LoadProtocol(Read(eeprom, EE_PROTOCOL_ID));
      Reset();
    }

    /** Put the bank in its safe state, then reinitialise the radio and the
        active plugin (init, then bind). */
    method Reset()
      requires Valid()
      modifies this`trace, ppm
      ensures Valid()
      ensures ppm[..] == ChannelBank.ResetBank()
      ensures trace == old(trace) + ResetEvents(currentProtocol)
    {
      for ch := 0 to CH_MAX_CONTROL
        modifies ppm
        invariant forall i :: 0 <= i < ch ==> ppm[i] == PPM_MID
      {
        ppm[ch] := PPM_MID;
      }
      ppm[CH_THROTTLE] := PPM_MIN;
      assert forall i :: 0 <= i < CH_MAX_CONTROL ==> ppm[..][i] == ChannelBank.ResetBank()[i];
      InitRadio();
      InitProtocol();
    }

    /** One cooperative step at clock `now`: when the deadline is reached the
        active plugin runs once and `pluginNext` is what its `loop()` returns;
        otherwise nothing happens. */
    method Loop(now: nat, pluginNext: nat)
      modifies this`next, this`trace
      ensures Due(old(next), now) ==> next == pluginNext && trace == old(trace) + [PluginLoop(currentProtocol)]
      ensures !Due(old(next), now) ==> next == old(next) && trace == old(trace)
      ensures next == NextDeadline(old(next), now, pluginNext)
    {
      if now >= next {
        trace := trace + [PluginLoop(currentProtocol)];
        next := pluginNext;
      }
    }

    method GetProtocol() returns (p: Protocol)
      ensures p == currentProtocol
    {
      p := currentProtocol;
    }

    /** Switch protocol. The same protocol is a no-op; another one is
        selected, persisted (write-if-changed) and brought up by `Reset`. */
    method SetProtocol(p: Protocol)
      requires Valid()
      modifies this`currentProtocol, this`eeprom, this`trace, ppm
      ensures Valid()
      ensures p == old(currentProtocol) ==>
                eeprom == old(eeprom) && trace == old(trace) && ppm[..] == old(ppm[..])
      ensures currentProtocol == p
      ensures p != old(currentProtocol) ==>
                eeprom == Update(old(eeprom), EE_PROTOCOL_ID, p)
                && ppm[..] == ChannelBank.ResetBank()
                && trace == old(trace) + ResetEvents(p)
    {
      if currentProtocol == p {
        return;
      }
      currentProtocol := p;
      eeprom := Update(eeprom, EE_PROTOCOL_ID, currentProtocol);
      Reset();
    }

    method GetChannelNum() returns (n: uint8)
      ensures n == channelNum
    {
      n := channelNum;
    }

    /** Set the channel-count limit, clamped below CH_MAX_CONTROL. */
    method SetChannelNum(num: uint8)
      requires Valid()
      modifies this`channelNum
      ensures Valid()
      ensures channelNum == Min(num, CH_MAX_CONTROL - 1)
      ensures channelNum < CH_MAX_CONTROL
    {
      channelNum := num;
      if channelNum >= CH_MAX_CONTROL {
        channelNum := CH_MAX_CONTROL - 1;
      }
    }

    /** Read a slot; the index is checked against CH_MAX_CONTROL, not against `channelNum`. */
    method GetChannel(ch: nat) returns (v: uint16)
      requires Valid()
      ensures v == ChannelBank.Get(ppm[..], ch)
    {
      if ch < CH_MAX_CONTROL {
        return ppm[ch];
      }
      return 0;
    }

    /** Whether a slot holds a command; an index past the bank is not one. */
    method GetChannelIsCmd(ch: nat) returns (isCmd: bool)
      requires Valid()
      ensures isCmd == ChannelBank.IsCommand(ppm[..], ch)
    {
      if ch < CH_MAX_CONTROL {
        return ppm[ch] > PPM_MAX_COMMAND;
      }
      return false;
    }

    /** Write a slot; an index past the bank is silently ignored. */
    method SetChannel(ch: nat, value: uint16)
      requires Valid()
      modifies ppm
      ensures Valid()
      ensures ppm[..] == ChannelBank.Set(old(ppm[..]), ch, value)
    {
      if ch < CH_MAX_CONTROL {
        ppm[ch] := value;
      }
    }

    method InitRadio()
      modifies this`trace
      ensures trace == old(trace) + [RadioReset, RadioInitialize]
    {
      trace := trace + [RadioReset];
      trace := trace + [RadioInitialize];
    }

    method InitProtocol()
      modifies this`trace
      ensures trace == old(trace) + [PluginInit(currentProtocol), PluginBind(currentProtocol)]
    {
      trace := trace + [PluginInit(currentProtocol)];
      trace := trace + [PluginBind(currentProtocol)];
    }

    /** Load the identity from the store, or, when `renew` is set or the store
        holds the sentinel, draw a new one from `rand` and persist it. */
    method SetTxid(renew: bool, rand: seq<nat>)
      requires Valid()
      requires |rand| >= 4
      modifies transmitterId, this`eeprom
      ensures Valid()
      ensures transmitterId[..] == NewId(old(eeprom), renew, rand)
      ensures eeprom == StoreAfterTxid(old(eeprom), renew, rand)
    {
      for i := 0 to 4
        modifies transmitterId
        invariant forall k :: 0 <= k < i ==> transmitterId[k] == Read(eeprom, EE_TXID0 + k)
      {
        transmitterId[i] := Read(eeprom, EE_TXID0 + i);
      }
      assert transmitterId[..] == StoredId(eeprom);
      if renew || (transmitterId[0] == 0xFF && transmitterId[1] == 0x0FF) {
        RenewTxid(rand);
      }
    }

    /** The regeneration branch of `set_txid`: each identity byte is drawn
        from the random source and persisted with write-if-changed. */
    method RenewTxid(rand: seq<nat>)
      requires transmitterId.Length == 4
      requires |rand| >= 4
      modifies transmitterId, this`eeprom
      ensures transmitterId[..] == RandomId(rand)
      ensures eeprom == Persist(old(eeprom), EE_TXID0, RandomId(rand))
    {
      ghost var id := RandomId(rand);
      for i := 0 to 4
        invariant forall k :: 0 <= k < i ==> transmitterId[k] == id[k]
        invariant eeprom == Persist(old(eeprom), EE_TXID0, id[..i])
      {
        RandomIdAt(rand, i);
        transmitterId[i] := RandomByte(rand[i]);
        eeprom := Update(eeprom, EE_TXID0 + i, transmitterId[i]);
        PersistPrefix(old(eeprom), EE_TXID0, id, i);
      }
      assert transmitterId[..] == id;
      assert id[..4] == id;
    }
  }
}
