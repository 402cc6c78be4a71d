/**
 * The demo application: its globals, the start-up sequence of `main`, and
 * the handlers of the alert logic, each of which changes the globals, the
 * LED and the interrupt mask exactly as one `Alert.Step` does.
 */
module Demo {
  import opened Hal
  import Mcp9808
  import I2c
  import Alert

  /** The application's globals, with the HAL and the sensor driver they use. */
  class App {
    const hal: Hal
    const sensor: Mcp9808.Sensor
    /** Whether I2C_init succeeded. */
    var useI2c: bool
    /** Whether the sensor identified itself. */
    var gotSensor: bool
    /** The last reading, in sixteenths of a degree. */
    var currentTemp: int
    /** The alert task's notification count. */
    var notifications: nat
    /** One-shot alert timers created, started and not yet expired. */
    var timers: nat

    ghost predicate Valid()
      reads this
    {
      sensor.hal == hal
    }

    /**
     * The globals start zeroed: no bus, no sensor, 0.0 degrees, nothing
     * pending; the driver is new, with its shadow limits as initialised.
     */
    constructor (hal: Hal)
      ensures Valid() && this.hal == hal
      ensures !useI2c && !gotSensor && currentTemp == 0 && notifications == 0 && timers == 0
      ensures fresh(sensor)
      ensures sensor.limitCritical == Mcp9808.DefaultLowerLimitC &&
        sensor.limitLower == Mcp9808.DefaultUpperLimitC &&
        sensor.limitUpper == Mcp9808.DefaultCritLimitC
    {
      this.hal := hal;
      sensor := new Mcp9808.Sensor(hal);
      useI2c := false;
      gotSensor := false;
      currentTemp := 0;
      notifications := 0;
      timers := 0;
    }

    /** The part of the state the alert logic is about. */
    function Control(): Alert.State
      reads this, hal
    {
      Alert.State(hal.led, hal.irqEnabled, notifications, timers, currentTemp, gotSensor)
    }

    /** The sensor's alert line: the interrupt runs the handler only while unmasked. */
    method AlertEdge()
      modifies this`notifications, hal`trace, hal`irqEnabled
      ensures Control() == Alert.Step(old(Control()), Alert.Edge)
      ensures hal.trace == old(hal.trace) + (if old(hal.irqEnabled) then [IrqDisable] else [])
    {
      if hal.irqEnabled {
        IsrWorker();
      }
    }

    /** isr_worker: notify the alert task, then mask the interrupt; no bus traffic. */
    method IsrWorker()
      modifies this`notifications, hal`trace, hal`irqEnabled
      ensures notifications == old(notifications) + 1
      ensures !hal.irqEnabled
      ensures hal.trace == old(hal.trace) + [IrqDisable]
    {
      notifications := notifications + 1;
      hal.DisableIrq();
    }

    /**
     * One pass of task_alert's loop after its take returns: reset the
     * count, light the LED, disable the sensor's alert output if the sensor
     * is present, and arm the timer.  With no notification the take blocks
     * and nothing happens.
     */
    method AlertTask(started: bool)
      requires Valid()
      modifies this`notifications, this`timers, hal`trace, hal`rxNext, hal`led
      ensures Control() == Alert.Step(old(Control()), Alert.Wake(started))
      ensures old(notifications) == 0 ==> hal.trace == old(hal.trace) && hal.rxNext == old(hal.rxNext)
      ensures old(notifications) > 0 ==>
        hal.trace == old(hal.trace) + [LedWrite(true)]
          + (if gotSensor
             then Mcp9808.ClearAlertTrace(false, old(hal.NextReply()), ReplyAt(hal.replies, old(hal.rxNext) + 1))
             else [])
      ensures old(notifications) > 0 ==> hal.rxNext == old(hal.rxNext) + (if gotSensor then 2 else 0)
    {
      if notifications == 0 {
        return;
      }
      notifications := 0;
      hal.WriteLed(true);
      if gotSensor {
        sensor.ClearAlert(false);
      }
      SetAlertTimer(started);
    }

    /** set_alert_timer: a fresh one-shot timer; `started` says whether creating and starting it succeeded. */
    method SetAlertTimer(started: bool)
      modifies this`timers
      ensures timers == old(timers) + (if started then 1 else 0)
    {
      if started {
        timers := timers + 1;
      }
    }

    /**
     * timer_fired_callback for a pending timer.  Below 30 degrees: LED off,
     * clear and re-enable the sensor's alert output, and only then unmask
     * the interrupt.  Otherwise arm a new timer and change nothing else.
     */
    method TimerFired(started: bool)
      requires Valid()
      modifies this`timers, hal`trace, hal`rxNext, hal`led, hal`irqEnabled
      ensures Control() == Alert.Step(old(Control()), Alert.Fire(started))
      ensures old(timers) == 0 || old(currentTemp) >= Alert.UpperLimit ==>
        hal.trace == old(hal.trace) && hal.rxNext == old(hal.rxNext)
      ensures old(timers) > 0 && old(currentTemp) < Alert.UpperLimit ==>
        hal.rxNext == old(hal.rxNext) + 2 &&
        hal.trace == old(hal.trace) + [LedWrite(false)]
          + Mcp9808.ClearAlertTrace(true, old(hal.NextReply()), ReplyAt(hal.replies, old(hal.rxNext) + 1))
          + [IrqEnable]
    {
      if timers == 0 {
        return;
      }
      timers := timers - 1;
      if currentTemp < Alert.UpperLimit {
        hal.WriteLed(false);
        sensor.ClearAlert(true);
        hal.EnableIrq();
      } else {
        SetAlertTimer(started);
      }
    }

    /** One pass of task_sensor's loop: refresh the cached reading when the sensor is present. */
    method SensorTask()
      requires Valid()
      modifies this`currentTemp, hal`trace, hal`rxNext
      ensures Control() == Alert.Step(old(Control()), Alert.Poll(Mcp9808.ReadTempOf(old(hal.NextReply()))))
      ensures gotSensor ==> hal.trace == old(hal.trace) + Mcp9808.ReadTempTrace && hal.rxNext == old(hal.rxNext) + 1
      ensures !gotSensor ==> hal.trace == old(hal.trace) && hal.rxNext == old(hal.rxNext)
    {
      if gotSensor {
        currentTemp := sensor.ReadTemp();
      }
    }

    /**
     * `main` up to the scheduler: LED off and the alert interrupt unmasked
     * (GPIO_init), the bus brought up, the sensor identified, and, when it
     * is present, its limits programmed and a first reading taken.  The
     * alert logic then starts in its armed state.
     */
    method Startup()
      requires Valid()
      requires !gotSensor && notifications == 0 && timers == 0
      modifies this`useI2c, this`gotSensor, this`currentTemp
      modifies hal`trace, hal`rxNext, hal`probeNext, hal`led, hal`irqEnabled, hal`config
      modifies sensor`limitLower, sensor`limitUpper, sensor`limitCritical
      ensures hal.config == I2c.DemoConfig
      ensures var k := I2c.FailedProbes(hal.probes, old(hal.probeNext), I2c.MaxProbes);
        useI2c == (hal.initStatus == Ok && k < I2c.MaxProbes)
      ensures gotSensor == (useI2c &&
        Mcp9808.IdentityMatches(ReplyAt(hal.replies, old(hal.rxNext)), ReplyAt(hal.replies, old(hal.rxNext) + 1)))
      ensures gotSensor ==> currentTemp == Mcp9808.ReadTempOf(ReplyAt(hal.replies, old(hal.rxNext) + 4))
      ensures var k := I2c.FailedProbes(hal.probes, old(hal.probeNext), I2c.MaxProbes);
        hal.probeNext == old(hal.probeNext) +
          (if hal.initStatus != Ok then 0 else if useI2c then k + 1 else I2c.MaxProbes)
      ensures Extends(hal.trace, old(hal.trace) + [LedWrite(false), IrqEnable, BusInit(I2c.DemoConfig)])
      ensures Alert.Armed(Control())
      ensures gotSensor ==>
        sensor.limitLower == Alert.TempLowerLimitC &&
        sensor.limitUpper == Alert.TempUpperLimitC &&
        sensor.limitCritical == Alert.TempCritLimitC
      ensures !gotSensor ==> currentTemp == old(currentTemp)
      ensures !gotSensor ==>
        sensor.limitLower == old(sensor.limitLower) &&
        sensor.limitUpper == old(sensor.limitUpper) &&
        sensor.limitCritical == old(sensor.limitCritical)
      ensures hal.rxNext == old(hal.rxNext) + (if !useI2c then 0 else if gotSensor then 5 else 2)
    {
      ghost var t0 := hal.trace;
      BringUpBus();
      ghost var t1 := hal.trace;
      BringUpSensor();
      ExtendsTrans(hal.trace, t1, t0 + [LedWrite(false), IrqEnable, BusInit(I2c.DemoConfig)]);
    }

    /** The first half of start-up: GPIO_init, then I2C_init. */
    method BringUpBus()
      modifies this`useI2c, hal`trace, hal`probeNext, hal`led, hal`irqEnabled, hal`config
      ensures hal.config == I2c.DemoConfig
      ensures var k := I2c.FailedProbes(hal.probes, old(hal.probeNext), I2c.MaxProbes);
        useI2c == (hal.initStatus == Ok && k < I2c.MaxProbes)
      ensures var k := I2c.FailedProbes(hal.probes, old(hal.probeNext), I2c.MaxProbes);
        hal.probeNext == old(hal.probeNext) +
          (if hal.initStatus != Ok then 0 else if useI2c then k + 1 else I2c.MaxProbes)
      ensures !hal.led && hal.irqEnabled
      ensures Extends(hal.trace, old(hal.trace) + [LedWrite(false), IrqEnable, BusInit(I2c.DemoConfig)])
    {
      ghost var t0 := hal.trace;
      GpioInit();
      useI2c := I2c.Init(hal);
      ghost var pre := t0 + [LedWrite(false), IrqEnable] + [BusInit(I2c.DemoConfig)];
      assert pre == t0 + [LedWrite(false), IrqEnable, BusInit(I2c.DemoConfig)];
      if hal.initStatus == Ok {
        ExtendsAppend(pre, I2c.CheckTrace(Mcp9808.BusAddress as uint16,
          I2c.FailedProbes(hal.probes, old(hal.probeNext), I2c.MaxProbes)));
      } else {
        ExtendsAppend(pre, []);
      }
    }

    /** The second half of start-up: identify the sensor if the bus is up, then prepare it if it answered. */
    method BringUpSensor()
      requires Valid() && !gotSensor
      modifies this`gotSensor, this`currentTemp, hal`trace, hal`rxNext
      modifies sensor`limitLower, sensor`limitUpper, sensor`limitCritical
      ensures gotSensor == (useI2c &&
        Mcp9808.IdentityMatches(ReplyAt(hal.replies, old(hal.rxNext)), ReplyAt(hal.replies, old(hal.rxNext) + 1)))
      ensures gotSensor ==> currentTemp == Mcp9808.ReadTempOf(ReplyAt(hal.replies, old(hal.rxNext) + 4))
      ensures gotSensor ==>
        sensor.limitLower == Alert.TempLowerLimitC &&
        sensor.limitUpper == Alert.TempUpperLimitC &&
        sensor.limitCritical == Alert.TempCritLimitC
      ensures !gotSensor ==> currentTemp == old(currentTemp)
      ensures !gotSensor ==>
        sensor.limitLower == old(sensor.limitLower) &&
        sensor.limitUpper == old(sensor.limitUpper) &&
        sensor.limitCritical == old(sensor.limitCritical)
      ensures hal.rxNext == old(hal.rxNext) + (if !useI2c then 0 else if gotSensor then 5 else 2)
      ensures Extends(hal.trace, old(hal.trace))
    {
      ghost var t0 := hal.trace;
      if useI2c {
        gotSensor := sensor.Init();
      }
      ghost var t1 := hal.trace;
      if !useI2c {
        ExtendsAppend(t0, []);
      } else if gotSensor {
        ExtendsAppend(t0, Mcp9808.IdentityTrace
          + Mcp9808.ClearAlertTrace(true, ReplyAt(hal.replies, old(hal.rxNext) + 2), ReplyAt(hal.replies, old(hal.rxNext) + 3)));
      } else {
        ExtendsAppend(t0, Mcp9808.IdentityTrace);
      }
      if gotSensor {
        PrepareSensor();
        ExtendsAppend(t1, LimitWrites() + Mcp9808.ReadTempTrace);
        ExtendsTrans(hal.trace, t1, t0);
      }
    }

    /** GPIO_init as far as the alert logic sees it: LED off, alert interrupt unmasked. */
    method GpioInit()
      modifies hal`trace, hal`led, hal`irqEnabled
      ensures !hal.led && hal.irqEnabled
      ensures hal.trace == old(hal.trace) + [LedWrite(false), IrqEnable]
    {
      hal.WriteLed(false);
      hal.EnableIrq();
    }

    /** The start-up writes of the three limits, lower, upper, critical, then the first reading. */
    method PrepareSensor()
      requires Valid()
      modifies this`currentTemp, hal`trace, hal`rxNext
      modifies sensor`limitLower, sensor`limitUpper, sensor`limitCritical
      ensures sensor.limitLower == Alert.TempLowerLimitC
      ensures sensor.limitUpper == Alert.TempUpperLimitC
      ensures sensor.limitCritical == Alert.TempCritLimitC
      ensures currentTemp == Mcp9808.ReadTempOf(old(hal.NextReply()))
      ensures hal.rxNext == old(hal.rxNext) + 1
      ensures hal.trace == old(hal.trace) + LimitWrites() + Mcp9808.ReadTempTrace
    {
      sensor.SetLowerLimit(Alert.TempLowerLimitC);
      sensor.SetUpperLimit(Alert.TempUpperLimitC);
      sensor.SetCriticalLimit(Alert.TempCritLimitC);
      currentTemp := sensor.ReadTemp();
    }
  }

  /** `t` begins with `pre`. */
  ghost predicate Extends(t: seq<Event>, pre: seq<Event>)
  {
    |pre| <= |t| && t[..|pre|] == pre
  }

  lemma ExtendsAppend(pre: seq<Event>, x: seq<Event>)
    ensures Extends(pre + x, pre)
  {
  }

  lemma ExtendsTrans(t: seq<Event>, u: seq<Event>, pre: seq<Event>)
    requires Extends(t, u) && Extends(u, pre)
    ensures Extends(t, pre)
  {
    assert t[..|pre|] == t[..|u|][..|pre|];
  }

  /** The three threshold writes of `main`, in order. */
  function LimitWrites(): seq<Event>
  {
    [ Transmit(Mcp9808.BusAddress, Mcp9808.ThresholdFrame(Mcp9808.RegLowerTemp, Alert.TempLowerLimitC), 200),
      Transmit(Mcp9808.BusAddress, Mcp9808.ThresholdFrame(Mcp9808.RegUpperTemp, Alert.TempUpperLimitC), 200),
      Transmit(Mcp9808.BusAddress, Mcp9808.ThresholdFrame(Mcp9808.RegCritTemp, Alert.TempCritLimitC), 200) ]
  }

  /** The frames `main` sends: lower 10, upper 30 and critical 50 degrees, in that order. */
  lemma LimitWritesDecode()
    ensures |LimitWrites()| == 3
    ensures LimitWrites()[0].bytes == [Mcp9808.RegLowerTemp, 0x00, 0xA0]
    ensures LimitWrites()[1].bytes == [Mcp9808.RegUpperTemp, 0x01, 0xE0]
    ensures LimitWrites()[2].bytes == [Mcp9808.RegCritTemp, 0x03, 0x20]
  {
  }
}
