# MCP9808 alert demo — a Dafny model

This project models the logic of a FreeRTOS demo for an STM32U5 board with
an MCP9808 temperature sensor on I2C. The demo has three parts:

- **The MCP9808 register driver** (`Mcp9808`, `mcp9808.dfy`):
  - decodes the ambient-temperature register, including the fold at 256 °C;
  - implements the read wrapper and its sentinel check;
  - encodes the threshold frames and keeps shadow copies of the limits;
  - does the read-modify-write that clears the alert, with its verifying read-back;
  - checks the sensor's identity.
- **The I2C bring-up and device-ready retry loop** (`I2c`, `i2c.dfy`): at most
  eleven probes 500 ms apart, then ten LED toggles and failure.
- **The alert logic** (`Alert`, `alert.dfy`, and `Demo`, `main.dfy`):
  - the interrupt handler notifies the alert task and masks itself;
  - the alert task lights the LED, quiets the sensor's alert output and arms a one-shot timer;
  - when the timer fires, it either clears the alert (below 30 °C) or re-arms;
  - the sensor task refreshes the cached temperature;
  - `main` programs the limits and takes the first reading.

The HAL is one object, `Hal.Hal` (`hal.dfy`). Every HAL call with an effect the
logic depends on appends one `Event` to a trace: bus transmit and receive,
device-ready probe (with its trials and timeout), peripheral init, delay, LED
write and toggle, and interrupt mask and unmask. `HAL_Init`, the clock and pin
set-up, `HAL_NVIC_SetPriority` and `HAL_I2C_GetError` add no event (see
"Left out"). The bus answers come from fixed scripts read through a cursor:

- `replies` gives the receive status and the bytes deposited; fewer bytes than
  requested leave the rest of the caller's buffer untouched;
- `probes` gives the device-ready results;
- `initStatus` gives the result of `HAL_I2C_Init`.

The contract of each driver, bus and handler method then states exactly which
frames it sends, in which order, and what it computes from the scripted answers.
Of the start-up sequence (`Demo.App.Startup` and its two halves), the contracts
state the resulting globals, shadow limits and script cursors, and the start of
the trace; the transactions in between are stated by the methods it calls.

Units and types:

- Temperatures are integer sixteenths of a degree, which is exact for every
  value the decode can produce.
- Bytes and 16-bit words are integer newtypes, and masks and shifts are written
  as arithmetic (`& 0x0FFF` is `% 0x1000`, `<< 4` is `* 16`).
- HAL status codes take their STM32 HAL values: HAL_OK 0, HAL_ERROR 1,
  HAL_BUSY 2, HAL_TIMEOUT 3.

The alert logic is a sequential event system. `Alert.Step` applies one
`Alert.Input` to an `Alert.State`:

- an edge on the alert line;
- a wake of the alert task;
- the expiry of a pending timer;
- a pass of the sensor task.

The state holds the LED level, the interrupt mask, the notification count, the
number of pending timers, the cached temperature and whether the sensor is
present. Each handler of `Demo.App` is proved to change the application's
globals, the LED and the mask exactly as one `Step` does, and its contract also
gives the bus traffic. Whether `xTimerCreate`/`xTimerStart` succeed is an input
(`started`).

The main results:

- If every timer starts, the logic is always in exactly one phase:
  - armed: the interrupt is unmasked;
  - signalled: one notification is outstanding;
  - displayed: one timer is pending, and the LED is lit.
- So the interrupt is unmasked iff no timer and no notification is pending.
- If a timer fails to start, the logic stalls for good.
- The alert never clears while the cached reading is 30 °C or more.
- Only a timer that fires below 30 °C unmasks the interrupt, and it does so
  after the LED is turned off and the sensor's alert is re-enabled.

Points where the code behaves differently from what one might expect; the
model follows the code:

- **A failed read clears the alert.** A fail-safe design would keep the alert
  on when the sensor cannot be read. In the code, an ambient read that deposits
  nothing leaves the 0x06 0x30 pre-fill in the buffer and returns the HAL status
  code as a temperature: 1 to 3 °C for a failed receive. A failed receive that
  does deposit bytes returns their decode instead (`Mcp9808.ReadTempDecodes`).
  The sensor task caches that value, and the timer callback compares only the cached value with 30 °C. A
  failed read therefore clears the alert at the next expiry
  (`Alert.ReadFailureClearsAlert`). The timer callback never reads the
  temperature itself; it reads only CONFIG, through `clear_alert(true)`.
- **The retry loop is the device-ready probe.** The bounded retry is the
  device-ready probe loop of `I2C_check`, not part of the identity check, which
  reads each ID once.
- **Bytes `0x00 0x23` are not sign-set.** Bit 12 is clear, so the code decodes
  them as 2.1875 °C; the folded 253.8125 °C needs `0x10 0x23`
  (`Mcp9808.SampleReadings`).
- **The shadow limits start swapped.** The initialisers give critical 10,
  lower 30 and upper 50 (`Demo/mcp9808.c:24-26`). The constructor models that
  as written. `main` overwrites all three when the sensor is present.
- **The enable bit comes from the header.** The driver ORs in
  `MCP9808_CONFIG_ENABLE_ALRT`, which no shown header defines. It is modelled as
  the header's `MCP9808_CONFIG_ENABLE_ALERT`, 0x08.

## Model

| member | source | states |
|---|---|---|
| Hal.StatusCode | Demo/mcp9808.c:80 | a status read as a number is 0..3, and 0 exactly for HAL_OK |
| Mcp9808.Word | Demo/mcp9808.c:52-53 | the big-endian word of two bytes has the first byte as its high byte and the second as its low byte |
| Mcp9808.DecodeTemp | Demo/mcp9808.c:182-187 | the decoded reading lies in 0..4095 sixteenths when bit 12 is clear and in 1..4096 when it is set: never negative, never above 256 degrees |
| Mcp9808.WordFields | Demo/mcp9808.c:184-186 | the 12-bit count is the low nibble of the high byte followed by the low byte, and the fold flag is bit 4 of the high byte |
| Mcp9808.DecodeFromBytes | Demo/mcp9808.c:182-187 | the reading from bytes b0, b1 is the count m = (b0 mod 16)*256 + b1, or 4096 - m when bit 4 of b0 is set |
| Mcp9808.DecodeIgnoresUnusedBits | Demo/mcp9808.c:184-186 | bits 13-15 of the register have no effect on the reading |
| Mcp9808.DecodeAmbientBytes | Demo/mcp9808.c:182-187 | for every count m, fold flag and unused-bit pattern, the bytes of that register value decode to m, or to 4096 - m when folded |
| Mcp9808.SampleReadings | Demo/mcp9808.c:182-187 | 0x01 0x90 is 25.0 degrees, 0x00 0x23 is 2.1875 degrees, 0x10 0x23 folds to 253.8125 degrees |
| Mcp9808.ReadTempOf | Demo/mcp9808.c:70-84 | what read_temp returns lies in 0..4096 sixteenths |
| Mcp9808.ReadTempDecodes | Demo/mcp9808.c:79-83 | a reply that delivers a word other than 0x0630 yields the decode of its bytes |
| Mcp9808.ReadTempReportsStatus | Demo/mcp9808.c:73-80 | a reply that deposits nothing leaves the sentinel in the buffer, so the result is the receive status code in degrees |
| Mcp9808.ReadTempDecodesNothing | Demo/mcp9808.c:79-80 | a reply that delivers 0x0630 is taken for the sentinel and yields the status code |
| Mcp9808.ReadTempSentinelCollision | Demo/mcp9808.c:73-80 | a genuine 99.0-degree reading and an untouched buffer both come back as 0 |
| Mcp9808.ThresholdFrame | Demo/mcp9808.c:166-174 | the limit frame has three bytes and begins with the register address |
| Mcp9808.ThresholdClamps | Demo/mcp9808.c:168 | t and t & 127 produce the same frame |
| Mcp9808.ThresholdFrameShape | Demo/mcp9808.c:168-172 | the frame's second byte is at most 0x07 and its third byte's low nibble is 0 |
| Mcp9808.ThresholdRoundTrip | Demo/mcp9808.c:168-172 | decoding the frame's two data bytes gives back exactly t & 127 degrees, with bit 12 clear |
| Mcp9808.ThresholdFrameInjective | Demo/mcp9808.c:166-172 | two limits give the same frame exactly when they agree modulo 128 |
| Mcp9808.ClearBit5 | Demo/mcp9808.c:118 | `b & 0xDF` clears bit 5 and keeps every other bit |
| Mcp9808.ClearAlertTrace | Demo/mcp9808.c:93-121 | clear_alert makes five bus transactions, plus one mismatch report at most; the first and the fourth select CONFIG, the second and the fifth receive two bytes with a 500 ms timeout |
| Mcp9808.ClearAlertWrites | Demo/mcp9808.c:96-110 | clear_alert writes [0x01, the MSB read, 0x23 or 0x2B]; the LSB read is discarded and has no effect on the frame |
| Mcp9808.ReadMsbIsFirstByte | Demo/mcp9808.c:99 | the MSB written back is the first byte received, or 0 when none arrived |
| Mcp9808.ClearAlertMismatch | Demo/mcp9808.c:113-120 | a mismatch is reported iff the byte read back differs from the written LSB & 0xDF (0x0B with enable, 0x03 without); nothing else depends on it |
| Mcp9808.IdentityMatches | Demo/mcp9808.c:52-57 | the identity check passes only if the sensor sent both manufacturer-ID bytes and at least the first device-ID byte |
| Mcp9808.IdentityExact | Demo/mcp9808.c:52-57 | the identity check passes iff the manufacturer word is 0x0054 and the device word is 0x0400 |
| Mcp9808.SilentSensorRejected | Demo/mcp9808.c:38-57 | an identity read that deposits nothing (zeroed buffer) fails the check |
| Mcp9808.Sensor.constructor | Demo/mcp9808.c:24-26 | the shadow limits start as the initialisers are written: critical 10, lower 30, upper 50 |
| Mcp9808.Sensor.ReadRegister | Demo/mcp9808.c:42-44 | one register read: writes the register address, receives two bytes into the buffer at the offset, leaves the rest of the buffer alone |
| Mcp9808.Sensor.Init | Demo/mcp9808.c:35-62 | returns whether both identity words match; reads manufacturer then device ID with 100 ms timeouts, and runs clear_alert(true) only when they match |
| Mcp9808.Sensor.ReadTemp | Demo/mcp9808.c:70-84 | returns ReadTempOf of the reply, after writing register 0x05 and receiving two bytes |
| Mcp9808.Sensor.ClearAlert | Demo/mcp9808.c:93-121 | the read, the 3-byte write, the read-back and, on a mismatch only, the reported error, in that order |
| Mcp9808.Sensor.WriteAlertConfig | Demo/mcp9808.c:96-110 | reads CONFIG and writes the forced frame; the LSB written is 0x2B on enable, 0x23 otherwise |
| Mcp9808.Sensor.CheckAlertConfig | Demo/mcp9808.c:113-120 | re-reads CONFIG and reports a mismatch iff the written LSB & 0xDF differs from the byte read back |
| Mcp9808.Sensor.SetUpperLimit | Demo/mcp9808.c:129-132 | stores the unclamped argument in the upper shadow only and writes the frame for register 0x02 |
| Mcp9808.Sensor.SetCriticalLimit | Demo/mcp9808.c:140-143 | stores the unclamped argument in the critical shadow only and writes the frame for register 0x04 |
| Mcp9808.Sensor.SetLowerLimit | Demo/mcp9808.c:151-154 | stores the unclamped argument in the lower shadow only and writes the frame for register 0x03 |
| Mcp9808.Sensor.SetTempLimit | Demo/mcp9808.c:166-174 | transmits exactly the threshold frame, with a 200 ms timeout |
| I2c.FailedProbes | Demo/i2c.c:66-81 | the number of failing probes before the first success, capped at the probe budget: all earlier probes fail and, below the cap, the next succeeds |
| I2c.FailedProbesUnique | Demo/i2c.c:66-81 | that count is the only one with this property |
| I2c.CheckFailsIffAllFail | Demo/i2c.c:68-89 | I2C_check fails iff all eleven probes fail |
| I2c.FailedProbeTrace | Demo/i2c.c:68-81 | n failed probes, each with its delay, are 2n actions |
| I2c.BlinkTrace | Demo/i2c.c:84-87 | n toggles, each with its delay, are 2n actions |
| I2c.CheckTrace | Demo/i2c.c:64-90 | when probe k+1 succeeds, I2C_check makes 2k+1 actions and the last is that probe; when all eleven fail, it makes 2*(11+10) actions |
| I2c.FailedProbeTraceFacts | Demo/i2c.c:68-81 | n failed probes make n probes, n 500 ms delays and no LED change |
| I2c.BlinkTraceFacts | Demo/i2c.c:84-87 | the failure signal toggles the LED n times, so an even n restores its level |
| I2c.CheckTraceCounts | Demo/i2c.c:64-90 | I2C_check makes k+1 probes when the (k+1)-th succeeds and 11 when none does, one 500 ms delay per failure, ten toggles only on failure, and leaves the LED as it found it |
| I2c.DelayFollowsFailedProbe | Demo/i2c.c:78-80 | every failed probe is immediately followed by its 500 ms delay |
| I2c.Check | Demo/i2c.c:64-90 | returns true at the first successful probe and probes no more; returns false after eleven failures and the ten toggles; the probe cursor and the trace are stated exactly |
| I2c.ProbeUntilReady | Demo/i2c.c:66-81 | the retry loop: all probes before the returned count fail, the next succeeds unless the count is 11, and each failure is followed by a delay |
| I2c.BlinkLed | Demo/i2c.c:84-87 | ten toggles, each followed by a 100 ms delay; the LED ends at its initial level |
| I2c.Init | Demo/i2c.c:31-54 | configures the handle (timing 0x00C01F67, 7-bit, no stretching, ...); when HAL_I2C_Init fails, returns false without probing; otherwise returns the result of probing 0x18 |
| Alert.Arm | Demo/main.c:267-276 | set_alert_timer adds exactly one pending timer when creating and starting it succeeds, none otherwise, and changes nothing else |
| Alert.Step | Demo/main.c:215-333 | per input: an edge (321-333) masks the interrupt and adds at most one notification, and touches neither the LED, the timers nor the cache; a wake (234-248) resets the notifications, lights the LED when it took one, and leaves the mask and the cache alone; a fire (284-306) never touches the notifications or the cache, and can only turn the LED off and only unmask; a poll (215-219) changes the cached temperature only; no input changes whether the sensor is present |
| Alert.ArmedIsSynced | Demo/main.c:159-180 | the start state (LED off, interrupt unmasked, nothing pending) satisfies both invariants |
| Alert.SyncedMeans | Demo/main.c:234-333 | under the invariant, at most one timer and one notification are pending, and the interrupt is unmasked iff neither is |
| Alert.StepKeepsSynced | Demo/main.c:234-333 | every input whose timers start preserves the one-phase invariant |
| Alert.RunKeepsSynced | Demo/main.c:234-333 | every run whose timers all start preserves the one-phase invariant |
| Alert.StepKeepsSound | Demo/main.c:234-333 | every input preserves "at most one phase, and a lit LED means the alert was taken" |
| Alert.RunKeepsSound | Demo/main.c:234-333 | every run preserves that weaker invariant, whatever the timer service does |
| Alert.FailedStartStalls | Demo/main.c:267-276 | a timer that fails to start leaves no phase, exactly when a wake takes a notification or a fire finds the reading still high |
| Alert.StalledStaysStalled | Demo/main.c:267-306 | with no phase left, no sequence of inputs unmasks the interrupt or changes the LED |
| Alert.UnmaskOnlyWhenCool | Demo/main.c:288-301 | a masked interrupt becomes unmasked iff a pending timer fires with the cached reading below 30 degrees |
| Alert.HotFireRearms | Demo/main.c:302-305 | a fire at 30 degrees or more (equality included) re-arms one timer and changes neither the LED nor the mask |
| Alert.HotNeverClears | Demo/main.c:284-306 | while every cached reading is 30 degrees or more, a masked interrupt stays masked and a lit LED stays lit |
| Alert.TempChangesOnlyOnPoll | Demo/main.c:215-219 | the cached temperature changes only on a poll, only with the sensor present, and then to the reading |
| Alert.EdgesCoalesce | Demo/main.c:321-333 | any number of edges in a row act as one: the handler runs once |
| Alert.MaskedIgnoresEdges | Demo/main.c:321-333 | while the interrupt is masked, edges change nothing |
| Alert.WakeCoalesces | Demo/main.c:238 | any number of outstanding notifications produce the same single wake, after which a second wake blocks |
| Alert.ReadFailureClearsAlert | Demo/main.c:288 | a read that deposits nothing caches the status code, below 30 degrees, so the next fire clears the alert |
| Demo.App.constructor | Demo/main.c:47-49 | the globals start false / 0.0, with nothing pending; the driver object is new and its shadow limits start as `Demo/mcp9808.c:24-26` initialises them (critical 10, lower 30, upper 50) |
| Demo.App.AlertEdge | Demo/main.c:312-315 | an edge runs the handler only while the interrupt is unmasked: exactly one Edge step |
| Demo.App.IsrWorker | Demo/main.c:321-333 | one notification given, the interrupt masked, and no other action (no bus traffic) |
| Demo.App.AlertTask | Demo/main.c:234-248 | exactly one Wake step; when a notification was taken, the trace is the LED write followed by clear_alert(false) only with the sensor present, and the pending timer is counted in the state; otherwise it blocks with no action |
| Demo.App.SetAlertTimer | Demo/main.c:267-276 | one more pending timer exactly when creating and starting it succeeds |
| Demo.App.TimerFired | Demo/main.c:284-306 | exactly one Fire step; below 30 degrees the actions are LED off, clear_alert(true) and, last, unmasking; otherwise no action but a new timer |
| Demo.App.SensorTask | Demo/main.c:210-226 | exactly one Poll step with the driver's reading, and one ambient read only when the sensor is present |
| Demo.App.GpioInit | Demo/main.c:152-181 | the LED is written low, then the alert interrupt is unmasked |
| Demo.App.Startup | Demo/main.c:55-84 | the bus is up iff HAL_I2C_Init succeeds and a probe answers; the sensor counts as present iff additionally its identity matches; the limits are then 10/30/50 and the first reading is cached, and otherwise the limits and the cache are untouched; the probe cursor advances as in I2C_check and the reply cursor by 0 (no bus), 2 (identity fails) or 5 (sensor present); the alert logic starts armed |
| Demo.App.BringUpBus | Demo/main.c:68-69 | LED off and interrupt unmasked, then the bus result of I2C_init, with the probe cursor advanced as I2C_check probes; the trace begins with the LED write, the unmask and the peripheral init |
| Demo.App.BringUpSensor | Demo/main.c:70-80 | the sensor is identified only when the bus is up; when it answers, the limits are 10/30/50 and the first reading is cached, and otherwise the limits and the cache are untouched; the reply cursor advances by 0, 2 or 5 |
| Demo.App.PrepareSensor | Demo/main.c:73-80 | writes the lower, upper and critical limits in that order, then takes the first reading |
| Demo.LimitWritesDecode | Demo/main.c:75-77 | the three frames are [0x03,0x00,0xA0], [0x02,0x01,0xE0] and [0x04,0x03,0x20] |

## Left out

- Clock, HAL and GPIO bring-up (`system_clock_config`, `SECURE_SystemCoreClockUpdate`,
  the pin setup of `GPIO_init` and `HAL_I2C_MspInit`): hardware register plumbing.
  Of `GPIO_init`, only the LED write and the interrupt unmask are modelled.
- Logging (`server_log`, `server_error`, `log_device_info`): output to a server,
  with no effect on the logic. The one exception is the config-mismatch report of
  `clear_alert`, which is an event in the trace.
- FreeRTOS task creation, the scheduler, preemption, priorities and tick timing.
  Handlers run as atomic, interleaved steps, so concurrency is not modelled.
  This hides two races: there is no bus lock, so a task preempted between the
  register-select transmit and the receive of a read (`task_sensor` at
  `Demo/main.c:218`, `task_alert` at 242, the timer callback at 296) can receive
  another register; and the alert interrupt is unmasked (`Demo/main.c:180`)
  before the alert task is created (101-106), while `Demo.App.Startup` admits
  no edge in between.
  The timer period and the sensor task's period are not modelled either.
- `task_led`: its toggle is commented out, so it only delays.
- `double` arithmetic: temperatures are exact integer sixteenths, and the
  comparison with `(double)TEMP_UPPER_LIMIT_C` is a comparison with 480 sixteenths.
- `MCP9808_get_alert_state`: it is declared in the header but never defined.
- Timer handles: `set_alert_timer` overwrites the handle without deleting the old
  timer; only the count of pending timers is kept.
- Edges latched by the EXTI controller while the interrupt is masked: a masked
  edge is dropped.
- The interrupt handler naming (EXTI3 vs EXTI11) and the task-period macros:
  these are routing and timing only.
- The statuses of `HAL_I2C_Master_Transmit`: the driver ignores them, and the
  model assumes a transmit cannot fail.
- `HAL_I2C_GetError`: it is only logged.
- `HAL_Init`, `HAL_NVIC_SetPriority`, timer creation and timer start: no trace
  event. Timer creation and start show only as the pending-timer count.
- Demo.App.Startup: states the start of the trace and the resulting state, not the
  whole trace. The transactions in between are stated by I2c.Init,
  Mcp9808.Sensor.Init and Demo.App.PrepareSensor.
- Demo.App.BringUpBus: states the start of the trace (LED write, unmask,
  peripheral init) and the probe cursor, not the probes made; those are stated
  by I2c.Init.
- Demo.App.BringUpSensor: states only that the trace is extended, not by what;
  the identity reads, the alert clear and the limit writes are stated by
  Mcp9808.Sensor.Init and Demo.App.PrepareSensor.
