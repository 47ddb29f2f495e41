# Charger driver monitor — Dafny model

This project models the core of the PX4 `charger` driver
(`src/drivers/charger/charger.cpp`). The driver polls one I2C chip, which is
one of three variants told apart by bus address: the balancer (voltage and
UPS current), the ADC (HSS current) or the GPIO expander (HSS toggle). It
decodes the register bytes and republishes them as `batt_info` snapshots on
the uORB bus, from a work-queue task that re-queues itself while the driver
runs.

Modules:

- `Device` (`device.dfy`): bytes, the `OK` status and the constants of
  `drivers/drv_charger.h`. That header is not part of this model, so the
  addresses, sentinels, GPIO codes and register numbers are declared without
  values. Every result holds for any values. A result that needs two of them
  to differ says so in its `requires` clause (`DistinctAddresses()`,
  `HssActive != HssInactive`).
- `Decode` (`decode.dfy`): the pure decoders of `get_voltage`,
  `get_ups_current`, `get_hss_current` and `get_gpio`, and the byte
  `set_gpio` writes. They are written with the source's shifts and masks on
  bit-vectors. Their arithmetic meaning and ranges are proved. Each decoder
  is paired with an encoder and proved inverse to it as far as the decoder
  allows.
- `MonitorModel` (`monitor.dfy`): the driver as a state machine on values.
  The state holds the run flag, `topic_initialized`, the queued ticks, the
  log of advertise/publish events and the trace of bus transfers. The module
  defines one tick of `monitor` (`Tick`, built from one read step per
  register), `setMode`, the work queue running its head (`RunQueued`), the
  configuration write of `init`, and runs of `monitor`/`off` commands and
  queue steps (`Run`).
- `Charger` (`charger.dfy`): the driver object as a class with those
  fields. Its methods (`Init`, the getters, `SetGpio`, `SetMode`, `Monitor`,
  `RunQueued`) are written as the source is and proved to change the object
  exactly as the `MonitorModel` functions say.
- `MonitorProperties` (`properties.dfy`): what the monitor guarantees and
  what it does not.

The transport is an oracle `Bus = nat -> Reply`: the reply to the driver's
n-th transfer. The number of transfers issued so far is the length of the
trace. A reply carries a status and two buffer bytes. After a failed
transfer those bytes stand for whatever the uninitialised buffer held, so
nothing is assumed about them. This matters because the sentinel retries
use their value without checking their status.

Some behaviours of the code are easy to misread. The model follows the code
in each case:

- The HSS current keeps two bits of the first byte. It is a 10-bit value
  in 0..1023, not an 11-bit one (`HssCurrent`).
- The UPS current fix-up subtracts 65535. Zero therefore has two encodings
  (0x0000 and 0xFFFF), and negative values are one above their two's
  complement (`UpsCurrent`, `UpsCurrentZero`).
- Arming is guarded only by the run flag. So `monitor`, `off`, `monitor`
  with no tick in between queues a second tick on the same work item
  (`OffThenOnQueuesTwice`). The rule "at most one outstanding tick" holds
  only for runs without `off` (`NeverOffKeepsSingleTick`).
- A failed read ends the tick without re-queueing it and leaves the run
  flag set. When that tick was the only one queued, the driver is left
  running with nothing queued. A later `monitor` command is then a no-op,
  and only `off` followed by `monitor` restarts polling
  (`FailedTickStalls`, `StallPersists`, `OffThenOnRevives`).
- `monitor` tests the three addresses one after the other, not with
  `else if`. The model does the same, so the per-variant lemmas assume
  distinct addresses. For an unknown address a tick reads nothing and
  publishes zeros, provided zero is not a sentinel.

## Model

| member | source | states |
|---|---|---|
| `Decode.LittleEndian16` | src/drivers/charger/charger.cpp:143 | the voltage `(data[1] << 8) \| data[0]` is `data[1]*256 + data[0]`, always in [0, 65535] |
| `Decode.LittleEndianRoundTrip` | src/drivers/charger/charger.cpp:143 | every value in [0, 65535] is decoded back from its two little-endian bytes |
| `Decode.LittleEndianBytesRoundTrip` | src/drivers/charger/charger.cpp:143 | re-encoding a decoded voltage gives back the same two bytes (the decoding is injective) |
| `Decode.Int16` | src/drivers/charger/charger.cpp:153-156 | the two's-complement reference that the current fix-up is compared against lies in [-32768, 32767] |
| `Decode.UpsCurrent` | src/drivers/charger/charger.cpp:153-156 | the UPS current lies in [-32767, 32767]; it equals the two's-complement value when that is non-negative and is one above it when negative |
| `Decode.UpsCurrentZero` | src/drivers/charger/charger.cpp:153-156 | the current is 0 exactly for bytes 0x0000 and 0xFFFF |
| `Decode.UpsCurrentRoundTrip` | src/drivers/charger/charger.cpp:153-156 | every current in [-32767, 32767] is decoded back from the bytes that encode it |
| `Decode.UpsCurrentBytesRoundTrip` | src/drivers/charger/charger.cpp:153-156 | the bytes are recovered from the decoded current for every pair except 0xFF,0xFF |
| `Decode.ScenarioNegativeCurrent` | src/drivers/charger/charger.cpp:153-156 | bytes 0x01,0x80 (raw 32769) decode to -32766 |
| `Decode.HssCurrent` | src/drivers/charger/charger.cpp:164 | `((data[0] & 3) << 8) \| data[1]` is `(data[0] mod 4)*256 + data[1]`, in [0, 1023] |
| `Decode.HssCurrentIgnoresUpperBits` | src/drivers/charger/charger.cpp:164 | first bytes that agree in their low two bits give the same reading |
| `Decode.HssCurrentRoundTrip` | src/drivers/charger/charger.cpp:164 | every reading in [0, 1023] is decoded back from its two bytes |
| `Decode.HssCurrentBytesRoundTrip` | src/drivers/charger/charger.cpp:164 | re-encoding a reading gives the first byte with its upper six bits cleared, and the second byte unchanged |
| `Decode.GpioByte` | src/drivers/charger/charger.cpp:179 | `set_gpio` writes `HSS_ACTIVE` or `HSS_INACTIVE` |
| `Decode.GpioRoundTrip` | src/drivers/charger/charger.cpp:173-179 | when the two codes differ, `get_gpio` of the byte `set_gpio(t)` writes is `t` |
| `Decode.GpioByteRoundTrip` | src/drivers/charger/charger.cpp:173-179 | re-encoding a decoded GPIO byte gives it back exactly when it is one of the two codes |
| `Decode.GpioCodesMustDiffer` | src/drivers/charger/charger.cpp:173-179 | if the two codes were equal, writing "off" would read back as on |
| `Decode.GpioStatus` | src/drivers/charger/charger.cpp:173 | defines `get_gpio`'s decoding: the toggle is on exactly when the byte is `HSS_ACTIVE` |
| `MonitorModel.VoltageStep` | src/drivers/charger/charger.cpp:255-261 | defines the voltage read: a failed transfer aborts; a sentinel value is read once more, ignoring that read's status |
| `MonitorModel.CurrentStep` | src/drivers/charger/charger.cpp:262-268 | defines the UPS-current read, with the same abort and single retry on the sentinel |
| `MonitorModel.HssStep` | src/drivers/charger/charger.cpp:271-276 | defines the HSS-current read: one read-only transfer, which aborts the tick if it fails |
| `MonitorModel.GpioStep` | src/drivers/charger/charger.cpp:278-283 | defines the GPIO read: one transfer, which aborts the tick if it fails |
| `MonitorModel.PollAt` | src/drivers/charger/charger.cpp:249-283 | defines the reads of a tick: zeroed readings, then the three address tests one after the other, each skipped once a read has failed |
| `MonitorModel.Emit` | src/drivers/charger/charger.cpp:287-294 | defines the topic step: advertise and set `topic_initialized` the first time, publish afterwards |
| `MonitorModel.Tick` | src/drivers/charger/charger.cpp:246-306 | defines one `monitor` run: the reads; nothing else after a failed read; otherwise the snapshot when both readings are non-sentinel, and the re-queue with 1000 while the run flag is set |
| `MonitorModel.SetMode` | src/drivers/charger/charger.cpp:186-199 | defines `setMode`: mode 1 sets the flag and queues a tick with delay 1 only when stopped; any other mode clears the flag |
| `MonitorModel.RunQueued` | src/drivers/charger/charger.cpp:236-242 | defines the work queue's step: remove the first queued tick and run `Tick` |
| `MonitorModel.InitConfig` | src/drivers/charger/charger.cpp:117-132 | `init` writes 0xF4 to `HSS_ADCCONF` at the ADC or to `HSS_GPIOCONF` at the GPIO expander (a write with no read), and nothing to any other address |
| `MonitorModel.InitStatus` | src/drivers/charger/charger.cpp:110-134 | `init` succeeds exactly when `I2C::init` succeeds and the config write, if one is issued, succeeds; it returns `I2C::init`'s status when that failed, and otherwise the config write's status |
| `MonitorProperties.SetModeEffect` | src/drivers/charger/charger.cpp:186-199 | after `setMode(m)` the run flag is `m == 1`; one tick is queued exactly when `m == 1` and the driver was stopped; nothing else changes |
| `MonitorProperties.SetModeIdempotent` | src/drivers/charger/charger.cpp:186-199 | repeating a mode changes nothing: a second `off` is harmless, and a second `monitor` queues no second tick |
| `MonitorProperties.OffThenOnQueuesTwice` | src/drivers/charger/charger.cpp:188-196 | `monitor`, `off`, `monitor` from a fresh driver leaves two ticks queued |
| `MonitorProperties.TickAbort` | src/drivers/charger/charger.cpp:254-283 | when a primary read fails, the tick leaves the run flag, the topic and the queue as they were |
| `MonitorProperties.TickPublish` | src/drivers/charger/charger.cpp:285-296 | a completed tick emits one snapshot exactly when neither sentinel was read: an advertise (which sets `topic_initialized`) the first time, a publish afterwards; otherwise the topic is untouched |
| `MonitorProperties.TickRequeue` | src/drivers/charger/charger.cpp:299-305 | a tick re-queues itself with the 1000 interval exactly when its reads completed and the run flag is set |
| `MonitorProperties.PollExtendsTrace` | src/drivers/charger/charger.cpp:249-285 | a tick only appends transfers (at most six) and its readings lie in the decoders' ranges; at an unknown address it issues none and reports all zeros |
| `MonitorProperties.BalancerReads` | src/drivers/charger/charger.cpp:254-269 | a balancer tick reads voltage and current once each, reads a value a second time only when its first read succeeded and gave the sentinel, and aborts when a first read fails |
| `MonitorProperties.BalancerReadings` | src/drivers/charger/charger.cpp:254-269 | a completed balancer tick reports each value from its retry when there was one, otherwise from the first read |
| `MonitorProperties.VoltageRetryStatusIgnored` | src/drivers/charger/charger.cpp:259-261 | the status of the voltage retry does not affect the tick |
| `MonitorProperties.SingleReadDevices` | src/drivers/charger/charger.cpp:271-283 | the ADC and the GPIO expander are read once per tick, the tick aborts exactly when that read fails, and otherwise the tick reports the decoded value |
| `MonitorProperties.ScenarioBalancerPublishes` | src/drivers/charger/charger.cpp:254-296 | voltage bytes 0x10,0x00 and current bytes 0xFF,0x7F emit the snapshot (16, 32767, 0, false) |
| `MonitorProperties.ScenarioVoltageRetry` | src/drivers/charger/charger.cpp:254-296 | a sentinel voltage followed by 16 issues exactly two voltage reads and one current read, then emits voltage 16 |
| `MonitorProperties.ScenarioGpioFailure` | src/drivers/charger/charger.cpp:278-283 | a failed GPIO read emits nothing and queues nothing |
| `MonitorProperties.FailedTickStalls` | src/drivers/charger/charger.cpp:254-305 | a failed read in the only queued tick leaves the driver running with nothing queued |
| `MonitorProperties.StallPersists` | src/drivers/charger/charger.cpp:188-192 | a stalled monitor stays exactly as it is through any run of `monitor` commands and queue steps |
| `MonitorProperties.OffThenOnRevives` | src/drivers/charger/charger.cpp:188-196 | `off` then `monitor` re-arms a stalled monitor with one tick |
| `MonitorProperties.OffDrains` | src/drivers/charger/charger.cpp:299-305 | after `off`, each tick the queue runs removes one queued tick and adds none |
| `MonitorProperties.NeverOffKeepsSingleTick` | src/drivers/charger/charger.cpp:186-199 | without `off`, there is at most one queued tick, and none while stopped |
| `MonitorProperties.StepKeepsLog` | src/drivers/charger/charger.cpp:287-296 | any single command keeps the topic log well formed |
| `MonitorProperties.RunKeepsLog` | src/drivers/charger/charger.cpp:287-296 | any run of commands keeps the topic log well formed: one advertise first and publishes after it, `topic_initialized` exactly when the log is non-empty, and every snapshot free of sentinels and in range |
| `MonitorProperties.InitialLogWellFormed` | src/drivers/charger/charger.cpp:96-98 | a new driver is stopped, has an uninitialised topic, nothing queued and an empty log, and so meets both run invariants (the base case of `RunKeepsLog` and `NeverOffKeepsSingleTick`) |
| `Charger.Charger.constructor` | src/drivers/charger/charger.cpp:90-101 | a new driver is stopped, has an uninitialised topic and nothing queued |
| `Charger.Charger.Init` | src/drivers/charger/charger.cpp:107-135 | `init` issues the config write of `InitConfig` only when `I2C::init` succeeded, and returns `InitStatus` |
| `Charger.Charger.GetVoltage` | src/drivers/charger/charger.cpp:137-145 | `get_voltage` issues one voltage-register read and returns its status and `LittleEndian16` of its bytes |
| `Charger.Charger.GetUpsCurrent` | src/drivers/charger/charger.cpp:147-158 | `get_ups_current` issues one current-register read and returns its status and `UpsCurrent` of its bytes |
| `Charger.Charger.GetHssCurrent` | src/drivers/charger/charger.cpp:160-166 | `get_hss_current` issues one read-only transfer and returns its status and `HssCurrent` of its bytes |
| `Charger.Charger.GetGpio` | src/drivers/charger/charger.cpp:168-175 | `get_gpio` issues one GPIO-data read and returns its status and whether the byte is `HSS_ACTIVE` |
| `Charger.Charger.SetGpio` | src/drivers/charger/charger.cpp:177-183 | `set_gpio` issues one write of the GPIO-data register and `GpioByte(t)`, and returns its status |
| `Charger.Charger.SetMode` | src/drivers/charger/charger.cpp:185-199 | `setMode` always returns OK and steps the driver as `MonitorModel.SetMode` |
| `Charger.Charger.ReadBalancer` | src/drivers/charger/charger.cpp:254-269 | the balancer branch of `monitor` issues exactly the reads of the voltage and current steps and reports their values |
| `Charger.Charger.ReadDevice` | src/drivers/charger/charger.cpp:254-283 | the three address tests of `monitor` issue exactly the reads of `PollAt` and report its readings |
| `Charger.Charger.Monitor` | src/drivers/charger/charger.cpp:246-306 | `monitor` steps the driver exactly as `MonitorModel.Tick` |
| `Charger.Charger.RunQueued` | src/drivers/charger/charger.cpp:236-242 | the work queue removes its first tick and runs `monitor` through the trampoline |

## Left out

- `charger_main`, `charger_usage` and the global `g_charger`. These are the
  command-line glue: argument parsing, the already-started and not-started
  checks, and exit codes. Their `monitor` and `off` commands appear only as
  `Mode(1)` and `Mode(0)` commands.
- `ioctl`. It only calls the getters and prints the result, and it always
  returns `ENOTTY`.
- `probe`. It is a bare voltage-register transfer that returns its status.
- `I2C::init`. Its status is a parameter of `Init`.
- `transfer`. It is modelled as the reply oracle plus the trace. Bus
  number, device path and bus speed are not modelled.
- `work_queue`. It is modelled as a list of queued delays. Real time and the
  meaning of the delays (1 and 1000) are not modelled, only what is queued.
  A second enqueue of the same `work_s` item is modelled as a second queued
  tick. What the real queue does with an item that is already linked is not
  modelled.
- `orb_advertise` and `orb_publish`. They are modelled as a log of advertise
  and publish events. The handle `batt_info_pub` is not kept.
- `printf` and `warnx` output, and the unused `MAX_CELL_VOLTAGE`.
- The values read after a failed transfer. The code decodes an
  uninitialised buffer there. The model decodes the oracle's bytes, which are
  arbitrary, and the only place that uses such values is the unchecked
  sentinel retry.
- Interleaving of `setMode` with a tick. `monitor` runs on the LPWORK work
  queue, but `init` and `setMode` run on the task of the shell command that
  calls them. An `off` or `monitor` can therefore arrive in the middle of a
  tick, before the tick tests the run flag. The model serialises `setMode`
  against whole ticks, so it does not capture a `setMode` that lands inside
  a tick.
