# nrf24_multipro controller, modelled in Dafny

This project models the top-level controller of a multi-protocol nRF24L01
transmitter (`nrf24_multipro`). The controller holds five pieces of state:

- the channel bank `ppm[]`, one 16-bit pulse width per control channel;
- the protocol selector `current_protocol`;
- the channel-count limit `channel_num`;
- the deadline that `loop()` keeps between calls;
- the 4-byte transmitter identity.

It also drives two outside collaborators: the radio driver (reset, then
initialise) and the protocol plugin picked by the selector (`init`, `bind`,
`loop`). Both are represented only by the calls made to them.

Modules:

- `Config`: the machine integer types and the header constants. The header is
  not part of this model, so `CH_MAX_CONTROL`, `CH_THROTTLE`, `PPM_MIN`,
  `PPM_MID`, `PPM_MAX_COMMAND`, `PROTO_END`, `ee_TXID0` (here `EE_TXID0`) and
  `ee_PROTOCOL_ID` (here `EE_PROTOCOL_ID`) are abstract constants. Their types
  carry the only facts the code relies on:
  - `CH_THROTTLE < CH_MAX_CONTROL <= 255`. The `uint8_t` loop counter in
    `reset` could not reach a larger bound.
  - `1 <= PROTO_END <= 256`. The selector is stored in one byte.
  - `EE_PROTOCOL_ID` lies outside `EE_TXID0 .. EE_TXID0 + 3`.
- `Eeprom`: the persistent byte store. `Read` returns the stored byte; a cell
  never written reads as the erased value 0xFF. `Update` writes only when the
  value changes. Every physical write is appended to a log, so "no write" can
  be stated. `Persist` stores a run of bytes one `Update` at a time.
- `ChannelBank`: the bank as a value, with the bounds-checked read, write and
  command test, and the bank `reset` produces.
- `Identity`: what `set_txid` reads, regenerates and persists.
- `Schedule`: the deadline test of `loop()`. `Dispatches` gives the clock
  readings at which the plugin runs over a series of `loop()` calls, when the
  plugin asks to run again a fixed period later.
- `Multipro`: the class `Controller` with the source's fields and methods. The
  `ppm` bank and the identity are arrays updated in place. The store and the
  trace of outside calls are fields that the methods reassign.

Facts about the code that the model keeps as written:

- `getChannel`, `setChannel` and `getChannelIsCMD` check the index against
  `CH_MAX_CONTROL`, not against the channel-count limit.
- `begin` sets `channel_num` to `CH_MAX_CONTROL`. So `channel_num < CH_MAX_CONTROL`
  holds only after `setChannelNum`. The class invariant is `channelNum <= CH_MAX_CONTROL`.
- The literal `0x0FF` in the sentinel test is 255. The "first two bytes are
  0xFF" sentinel can therefore match, and `BlankStoreRegenerates` shows it does.
- The identity round trip across a restart is not unconditional. A fresh
  identity that happens to start with 0xFF 0xFF looks like the sentinel, so the
  next `begin` draws a new one. `IdentityRoundTrip` states both cases.
- `reset` gives the same bank every time. It is not free of side effects: each
  call re-initialises the radio and the plugin, and the trace records that.

## Model

| member | source | states |
|---|---|---|
| `Config.Constrain` | src/nrf24_multipro.cpp:53 | Arduino `constrain`: the result lies in `[lo, hi]`; it equals the input when the input is in range, `lo` when the input is below it, and `hi` when the input is above it |
| `Multipro.LoadProtocol` | src/nrf24_multipro.cpp:53 | the loaded selector is a valid protocol; an in-range byte is kept; a byte `>= PROTO_END` (for example 255) becomes `PROTO_END - 1` |
| `Multipro.ProtocolSurvivesRestart` | src/nrf24_multipro.cpp:117 | a protocol persisted by a switch is the one the next `begin` loads, even after that `begin` handles the identity bytes |
| `Eeprom.Update` | src/nrf24_multipro.cpp:212 | write-if-changed: the cell then holds the value; a write is logged iff the stored byte differed, and otherwise the store is untouched |
| `Eeprom.UpdateOthers` | src/nrf24_multipro.cpp:212 | `update` of one address leaves every other cell as it was |
| `Eeprom.PersistStores` | src/nrf24_multipro.cpp:210-213 | after the byte-by-byte updates, the run of addresses holds the given bytes |
| `Eeprom.PersistFrame` | src/nrf24_multipro.cpp:210-213 | the byte-by-byte updates change no cell outside the run |
| `Eeprom.PersistWrites` | src/nrf24_multipro.cpp:210-213 | the writes logged are exactly those of the bytes that differed from what was stored, in address order |
| `Eeprom.PersistSameNoWrite` | src/nrf24_multipro.cpp:212 | storing bytes the store already holds performs no write and leaves the store unchanged |
| `Identity.TxidPersisted` | src/nrf24_multipro.cpp:205-215 | after `set_txid` the four stored bytes equal the identity in use; nothing outside them changes; a kept identity causes no write; a regenerated one writes only the differing bytes |
| `Identity.IdentityRoundTrip` | src/nrf24_multipro.cpp:205-215 | an identity persisted by `set_txid(true)` is reloaded unchanged and with no write by the next `set_txid(false)`, unless it begins 0xFF 0xFF, in which case a new random identity replaces it |
| `Identity.BlankStoreRegenerates` | src/nrf24_multipro.cpp:209 | stored bytes 0 and 1 both 0xFF make `set_txid(false)` take the random identity and persist it |
| `ChannelBank.GetAfterSet` | src/nrf24_multipro.cpp:147-175 | an in-range `setChannel(ch, v)` followed by `getChannel(ch)` returns `v`; every other slot keeps its value |
| `ChannelBank.OutOfRange` | src/nrf24_multipro.cpp:147-175 | for `ch >= CH_MAX_CONTROL`: `setChannel` leaves the bank unchanged, `getChannel` returns 0, and `getChannelIsCMD` is false |
| `ChannelBank.IsCommandAfterSet` | src/nrf24_multipro.cpp:159-175 | after an in-range `setChannel(ch, v)` the slot is a command iff `v > PPM_MAX_COMMAND` |
| `ChannelBank.ResetBankSlots` | src/nrf24_multipro.cpp:67-76 | after `reset`, the throttle slot is `PPM_MIN` and every other slot is `PPM_MID`; the result does not depend on the previous bank, so two resets give the same bank |
| `Schedule.DispatchesSpaced` | src/nrf24_multipro.cpp:85-91 | for any series of `loop()` calls: the plugin runs at most once per call, only at a call time, never before the initial deadline, and at least one period apart |
| `Schedule.PeriodicCount` | src/nrf24_multipro.cpp:85-91 | calls every `step`, with the deadline `j` steps ahead and a plugin asking for `k` steps: `n` calls run the plugin once per window of `k` calls from the deadline on (`Windows(n - j, k)`), or not at all if `n <= j` |
| `Schedule.WindowsIsCeiling` | src/nrf24_multipro.cpp:85-91 | the number of `k`-call windows covering `m` calls is `m / k` rounded up |
| `Schedule.PeriodicDispatchCount` | src/nrf24_multipro.cpp:85-91 | when the deadline has already been reached, `n` evenly spaced calls with a `k`-step plugin run it `ceil(n / k)` times |
| `Schedule.HalfPeriodCalls` | src/nrf24_multipro.cpp:85-91 | calls every 500 units from 500 to 3000, with a plugin returning now + 1000, run the plugin 3 times |
| `Multipro.Controller.constructor` | src/nrf24_multipro.cpp:220 | the global controller before `begin`: zero-filled bank, identity, limit, selector and deadline, with the given store and an empty trace |
| `Multipro.Controller.Begin` | src/nrf24_multipro.cpp:31-62 | identity handled as `set_txid(false)`; `channel_num == CH_MAX_CONTROL`; selector loaded from the stored byte and clamped; bank reset; radio and the loaded plugin re-initialised |
| `Multipro.Controller.Reset` | src/nrf24_multipro.cpp:67-80 | bank is the reset bank; the trace gains radio reset, radio initialise, plugin `init`, then plugin `bind`, for the current protocol |
| `Multipro.Controller.Loop` | src/nrf24_multipro.cpp:85-91 | if the clock has reached the deadline, the active plugin's `loop` is called once and its result becomes the deadline; otherwise nothing changes and no call is made |
| `Multipro.Controller.GetProtocol` | src/nrf24_multipro.cpp:97-99 | returns the current selector |
| `Multipro.Controller.SetProtocol` | src/nrf24_multipro.cpp:105-120 | same protocol: store, trace and bank unchanged. Different protocol: selector set, protocol byte updated write-if-changed, bank reset (throttle at `PPM_MIN`), and `init`/`bind` issued for the new protocol |
| `Multipro.Controller.GetChannelNum` | src/nrf24_multipro.cpp:126-128 | returns the channel-count limit |
| `Multipro.Controller.SetChannelNum` | src/nrf24_multipro.cpp:134-140 | the limit becomes `min(num, CH_MAX_CONTROL - 1)`, hence below `CH_MAX_CONTROL` |
| `Multipro.Controller.GetChannel` | src/nrf24_multipro.cpp:147-152 | returns the slot for `ch < CH_MAX_CONTROL`, and 0 otherwise |
| `Multipro.Controller.GetChannelIsCmd` | src/nrf24_multipro.cpp:159-164 | true iff `ch < CH_MAX_CONTROL` and the slot exceeds `PPM_MAX_COMMAND` |
| `Multipro.Controller.SetChannel` | src/nrf24_multipro.cpp:171-175 | an in-range write replaces exactly that slot; an out-of-range write leaves the bank unchanged |
| `Multipro.Controller.InitRadio` | src/nrf24_multipro.cpp:180-186 | the trace gains radio reset, then radio initialise |
| `Multipro.Controller.InitProtocol` | src/nrf24_multipro.cpp:191-199 | the trace gains `init`, then `bind`, of the current protocol's plugin |
| `Multipro.Controller.SetTxid` | src/nrf24_multipro.cpp:205-215 | the identity and the store become what `set_txid(renew)` specifies: the stored bytes, unless `renew` is set or the sentinel is present, in which case the four random bytes are persisted byte by byte with write-if-changed |
| `Multipro.Controller.RenewTxid` | src/nrf24_multipro.cpp:210-213 | the regeneration loop: the identity becomes the four random bytes, and the store becomes the old store with them updated one by one at `EE_TXID0 ..` |

## Left out

- Pin, SPI and LED setup, and `randomSeed(analogRead(...))` in `begin`: hardware I/O with no state the controller keeps.
- `DEBUG_MULTI` diagnostic output.
- The internals of `NRF24L01_Reset`, `NRF24L01_Initialize` and the protocol plugins: these are foreign code. They appear only as trace events, and the deadline a plugin's `loop` returns is a parameter.
- `random()`: its outputs are an input sequence. `Begin` and `SetTxid` need at least four values, and `random() & 0xFF` is taken as the value modulo 256 (`random()` never returns a negative value).
- The EEPROM's size and its internals: the store is a map from address to byte, and unwritten cells read as the erased value 0xFF.
- Multipro.Controller.Loop: the clock and the deadline are unbounded naturals, so the `unsigned long` wrap-around of `micros()` is not modelled. The source compares with a plain `>=`.
- Schedule.PeriodicCount: stated for a plugin stub that returns the call time plus a fixed period; a real plugin's deadlines are arbitrary and covered only by `Multipro.Controller.Loop` and `Schedule.DispatchesSpaced`.
- Multipro.Controller.SetProtocol: its argument is a `Protocol`, below `PROTO_END`. The source's `t_protocols` parameter can also hold the enumerator `PROTO_END` itself; the source would store it and then index `protocols[]` past its end in `initProt`, which is undefined behaviour, so that input is excluded.
- The header file that defines the constants, the `protAPI` interface and the `protocols[]` table is not part of this model. The facts assumed of its constants are listed above.
