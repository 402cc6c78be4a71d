/**
 * The demo's alert logic as a sequential event system.
 *
 * The sensor's ALERT line raises an interrupt; the interrupt handler
 * notifies the alert task and masks itself; the alert task lights the LED
 * and arms a one-shot timer; when the timer fires the cached temperature
 * decides whether the alert is over (LED off, interrupt unmasked) or the
 * timer is armed again.  A sensor task refreshes the cached temperature.
 * Each of these runs here as one atomic step on a `State`.
 */
module Alert {
  import opened Hal
  import Mcp9808

  /** The application's thresholds in whole degrees (TEMP_*_LIMIT_C). */
  const TempLowerLimitC: uint16 := 10
  const TempUpperLimitC: uint16 := 30
  const TempCritLimitC: uint16 := 50

  /** TEMP_UPPER_LIMIT_C in sixteenths of a degree, the unit of the cached temperature. */
  const UpperLimit: int := TempUpperLimitC as int * 16

  /**
   * What the alert logic depends on: the LED level, whether the alert
   * interrupt is unmasked, the alert task's notification count, how many
   * one-shot timers are pending, the cached temperature (sixteenths) and
   * whether the sensor was found at start-up.
   */
  datatype State = State(
    led: bool,
    irqEnabled: bool,
    notifications: nat,
    timers: nat,
    currentTemp: int,
    gotSensor: bool)

  /** One thing that can happen. */
  datatype Input =
    | Edge                 // an edge on the alert line; only an unmasked interrupt runs the handler
    | Wake(started: bool)  // the alert task's notification take returns; `started`: its new timer was created and started
    | Fire(started: bool)  // a pending timer expires; `started`: a timer it creates was created and started
    | Poll(reading: int)   // one pass of the sensor task; `reading` is what the driver's read would return

  /** set_alert_timer: one more pending timer, when creating and starting it succeeded. */
  function Arm(s: State, started: bool): (r: State)
    ensures r == s.(timers := r.timers)
    ensures r.timers == s.timers + (if started then 1 else 0)
  {
    if started then s.(timers := s.timers + 1) else s
  }

  /**
   * One step.  The handler gives a notification and masks the interrupt.
   * A wake with no notification blocks (no change); otherwise the count is
   * reset, the LED set and a timer armed.  A fire with no pending timer
   * cannot happen (no change); otherwise the timer is used up and the
   * cached temperature decides between clearing and re-arming.  A poll
   * refreshes the cache only when the sensor is present.
   */
  function Step(s: State, i: Input): (r: State)
    ensures r.gotSensor == s.gotSensor
    ensures i.Edge? ==>
      !r.irqEnabled && r.led == s.led && r.timers == s.timers &&
      r.currentTemp == s.currentTemp && r.notifications <= s.notifications + 1
    ensures i.Wake? ==>
      r.irqEnabled == s.irqEnabled && r.currentTemp == s.currentTemp &&
      r.notifications == 0 && (s.notifications > 0 ==> r.led) && r.timers >= s.timers
    ensures i.Fire? ==>
      r.notifications == s.notifications && r.currentTemp == s.currentTemp &&
      (r.led ==> s.led) && (s.irqEnabled ==> r.irqEnabled)
    ensures i.Poll? ==> r == s.(currentTemp := r.currentTemp)
  {
    match i
    case Edge =>
      if s.irqEnabled then s.(notifications := s.notifications + 1, irqEnabled := false) else s
    case Wake(started) =>
      if s.notifications == 0 then s else Arm(s.(notifications := 0, led := true), started)
    case Fire(started) =>
      if s.timers == 0 then s
      else
        var t := s.(timers := s.timers - 1);
        if s.currentTemp < UpperLimit then t.(led := false, irqEnabled := true) else Arm(t, started)
    case Poll(reading) =>
      if s.gotSensor then s.(currentTemp := reading) else s
  }

  function Run(s: State, inputs: seq<Input>): State
    decreases |inputs|
  {
    if inputs == [] then s else Run(Step(s, inputs[0]), inputs[1..])
  }

  /** Whether every timer this input tries to start does start. */
  predicate Starts(i: Input)
  {
    match i
    case Wake(started) => started
    case Fire(started) => started
    case _ => true
  }

  predicate AllStart(inputs: seq<Input>)
  {
    forall k :: 0 <= k < |inputs| ==> Starts(inputs[k])
  }

  /**
   * The alert is in exactly one phase at a time: armed (interrupt
   * unmasked), signalled (a notification outstanding) or displayed (a
   * timer pending).  `Tokens` counts the phases present.
   */
  function Tokens(s: State): nat
  {
    s.notifications + s.timers + (if s.irqEnabled then 1 else 0)
  }

  /** The invariant when every timer starts: one phase, and the LED is lit exactly while a timer is pending. */
  predicate Synced(s: State)
  {
    Tokens(s) == 1 && (s.led <==> s.timers > 0)
  }

  /** The invariant whatever the timer service does: at most one phase, and a lit LED means the alert was taken. */
  predicate Sound(s: State)
  {
    Tokens(s) <= 1 && (s.led ==> !s.irqEnabled && s.notifications == 0)
  }

  /** The state `main` hands to the scheduler: LED off, interrupt unmasked, nothing pending. */
  predicate Armed(s: State)
  {
    !s.led && s.irqEnabled && s.notifications == 0 && s.timers == 0
  }

  lemma ArmedIsSynced(s: State)
    requires Armed(s)
    ensures Synced(s) && Sound(s)
  {
  }

  /** Synced spelled out: at most one timer, at most one notification, and the interrupt is unmasked iff neither is pending. */
  lemma SyncedMeans(s: State)
    requires Synced(s)
    ensures s.timers <= 1 && s.notifications <= 1
    ensures s.irqEnabled <==> s.timers == 0 && s.notifications == 0
    ensures s.led ==> !s.irqEnabled
    ensures Sound(s)
  {
  }

  lemma StepKeepsSynced(s: State, i: Input)
    requires Synced(s) && Starts(i)
    ensures Synced(Step(s, i))
  {
  }

  lemma {:induction false} RunKeepsSynced(s: State, inputs: seq<Input>)
    requires Synced(s) && AllStart(inputs)
    ensures Synced(Run(s, inputs))
    decreases |inputs|
  {
    if inputs != [] {
      assert Starts(inputs[0]);
      StepKeepsSynced(s, inputs[0]);
      assert AllStart(inputs[1..]) by {
        forall k | 0 <= k < |inputs[1..]| ensures Starts(inputs[1..][k]) {
          assert inputs[1..][k] == inputs[k + 1];
        }
      }
      RunKeepsSynced(Step(s, inputs[0]), inputs[1..]);
    }
  }

  lemma StepKeepsSound(s: State, i: Input)
    requires Sound(s)
    ensures Sound(Step(s, i))
  {
  }

  lemma {:induction false} RunKeepsSound(s: State, inputs: seq<Input>)
    requires Sound(s)
    ensures Sound(Run(s, inputs))
    decreases |inputs|
  {
    if inputs != [] {
      StepKeepsSound(s, inputs[0]);
      RunKeepsSound(Step(s, inputs[0]), inputs[1..]);
    }
  }

  /**
   * A timer that fails to start loses the alert's only phase: from a
   * one-phase state, an input whose timer does not start leaves no phase
   * exactly when it is a wake that takes a notification or a fire that
   * finds the temperature still high.
   */
  lemma FailedStartStalls(s: State, i: Input)
    requires Tokens(s) == 1 && !Starts(i)
    ensures Tokens(Step(s, i)) == 0 <==>
      (i.Wake? && s.notifications > 0) || (i.Fire? && s.timers > 0 && s.currentTemp >= UpperLimit)
  {
  }

  /** Once no phase is left nothing revives the alert: the interrupt stays masked and the LED keeps its level. */
  lemma {:induction false} StalledStaysStalled(s: State, inputs: seq<Input>)
    requires Tokens(s) == 0
    ensures Tokens(Run(s, inputs)) == 0
    ensures !Run(s, inputs).irqEnabled
    ensures Run(s, inputs).led == s.led
    decreases |inputs|
  {
    if inputs != [] {
      RunStep(s, inputs);
      StalledStaysStalled(Step(s, inputs[0]), inputs[1..]);
    }
  }

  lemma RunStep(s: State, inputs: seq<Input>)
    requires inputs != []
    ensures Run(s, inputs) == Run(Step(s, inputs[0]), inputs[1..])
  {
  }

  /** The interrupt is unmasked again only by a timer that fires while the cached temperature is below 30 degrees. */
  lemma UnmaskOnlyWhenCool(s: State, i: Input)
    requires !s.irqEnabled
    ensures Step(s, i).irqEnabled <==> i.Fire? && s.timers > 0 && s.currentTemp < UpperLimit
  {
  }

  /** A fire at 30 degrees or more (equality included) re-arms and changes neither the LED nor the mask. */
  lemma HotFireRearms(s: State, started: bool)
    requires s.timers > 0 && s.currentTemp >= UpperLimit
    ensures var t := Step(s, Fire(started));
      t.led == s.led && t.irqEnabled == s.irqEnabled &&
      t.timers == s.timers - 1 + (if started then 1 else 0)
  {
  }

  /** Every reading an input sequence can put in the cache is at least 30 degrees. */
  predicate HotPolls(inputs: seq<Input>)
  {
    forall k :: 0 <= k < |inputs| && inputs[k].Poll? ==> inputs[k].reading >= UpperLimit
  }

  /**
   * Hysteresis: while every cached reading is 30 degrees or more, a masked
   * interrupt stays masked and a lit LED stays lit, whatever happens.
   */
  lemma {:induction false} HotNeverClears(s: State, inputs: seq<Input>)
    requires !s.irqEnabled && s.currentTemp >= UpperLimit && HotPolls(inputs)
    ensures !Run(s, inputs).irqEnabled
    ensures s.led ==> Run(s, inputs).led
    ensures Run(s, inputs).currentTemp >= UpperLimit
    decreases |inputs|
  {
    if inputs != [] {
      RunStep(s, inputs);
      assert inputs[0].Poll? ==> inputs[0].reading >= UpperLimit;
      assert HotPolls(inputs[1..]) by {
        forall k | 0 <= k < |inputs[1..]| && inputs[1..][k].Poll?
          ensures inputs[1..][k].reading >= UpperLimit
        {
          assert inputs[1..][k] == inputs[k + 1];
        }
      }
      HotNeverClears(Step(s, inputs[0]), inputs[1..]);
    }
  }

  /** The cached temperature changes only on a poll, only with the sensor present, and then to the reading. */
  lemma TempChangesOnlyOnPoll(s: State, i: Input)
    ensures Step(s, i).currentTemp != s.currentTemp ==>
      i.Poll? && s.gotSensor && Step(s, i).currentTemp == i.reading
    ensures Step(s, i).gotSensor == s.gotSensor
  {
  }

  /** `n` edges in a row. */
  function Edges(n: nat): seq<Input>
  {
    if n == 0 then [] else [Edge] + Edges(n - 1)
  }

  /** Edges coalesce: after the first, the masked interrupt ignores the rest. */
  lemma {:induction false} EdgesCoalesce(s: State, n: nat)
    requires n >= 1
    ensures Run(s, Edges(n)) == Step(s, Edge)
    ensures Run(s, Edges(n)).notifications <= s.notifications + 1
  {
    MaskedIgnoresEdges(Step(s, Edge), n - 1);
    assert Edges(n)[0] == Edge && Edges(n)[1..] == Edges(n - 1);
    RunStep(s, Edges(n));
  }

  lemma {:induction false} MaskedIgnoresEdges(s: State, n: nat)
    requires !s.irqEnabled
    ensures Run(s, Edges(n)) == s
  {
    if n > 0 {
      assert Edges(n)[0] == Edge && Edges(n)[1..] == Edges(n - 1);
      RunStep(s, Edges(n));
      MaskedIgnoresEdges(s, n - 1);
    }
  }

  /**
   * Notifications coalesce: the take resets the count, so any number of
   * outstanding notifications produce the same single wake, and a second
   * wake finds none and blocks.
   */
  lemma WakeCoalesces(s: State, n: nat, started: bool, started': bool)
    requires n >= 1
    ensures Step(s.(notifications := n), Wake(started)) == Step(s.(notifications := 1), Wake(started))
    ensures var t := Step(s.(notifications := n), Wake(started));
      t.notifications == 0 && Step(t, Wake(started')) == t
  {
  }

  /**
   * A read in the sensor task that deposits nothing clears the alert: the
   * cached value is then the receive status in degrees (0 to 3; 1 to 3 for
   * a failed receive), below 30, so the next fire unmasks the interrupt and
   * turns the LED off.
   */
  lemma ReadFailureClearsAlert(s: State, r: Reply, started: bool)
    requires s.gotSensor && s.timers > 0 && |r.data| == 0
    ensures var t := Step(Step(s, Poll(Mcp9808.ReadTempOf(r))), Fire(started));
      t.irqEnabled && !t.led
  {
    Mcp9808.ReadTempReportsStatus(r);
  }
}
