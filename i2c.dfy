/**
 * Bring-up of the I2C bus and the device-ready retry loop that tolerates a
 * slowly powering sensor.
 */
module I2c {
  import opened Hal
  import Mcp9808

  /** The loop gives up once more than this many probes have failed. */
  const MaxRetries: nat := 10
  /** Probes made at most: the first one and ten retries. */
  const MaxProbes: nat := MaxRetries + 1
  const RetryDelayMs: nat := 500
  /** Each probe is one attempt with a 100 ms timeout. */
  const ProbeTrials: nat := 1
  const ProbeTimeoutMs: nat := 100
  /** LED toggles when the device never became ready, each followed by a delay. */
  const BlinkCount: nat := 10
  const BlinkDelayMs: nat := 100

  /**
   * The handle I2C_init sets up: timing 0x00C01F67 (400 kHz), 7-bit
   * addressing, no dual address, own addresses 0 and no mask, no general
   * call, clock stretching disabled.
   */
  const DemoConfig := I2cConfig(0x00C01F67, SevenBit, false, 0, 0, false, false, true)

  /**
   * How many of `n` probes, starting at script position `start`, fail before
   * the first success (`n` when all fail).
   */
  function FailedProbes(probes: seq<Status>, start: nat, n: nat): (k: nat)
    ensures k <= n
    ensures forall j :: start <= j < start + k ==> ProbeAt(probes, j) != Ok
    ensures k < n ==> ProbeAt(probes, start + k) == Ok
    decreases n
  {
    if n == 0 || ProbeAt(probes, start) == Ok then 0
    else 1 + FailedProbes(probes, start + 1, n - 1)
  }

  /** The count is the unique `k` with `k` failures followed by a success (or `n` failures). */
  lemma FailedProbesUnique(probes: seq<Status>, start: nat, n: nat, k: nat)
    requires k <= n
    requires forall j :: start <= j < start + k ==> ProbeAt(probes, j) != Ok
    requires k < n ==> ProbeAt(probes, start + k) == Ok
    ensures FailedProbes(probes, start, n) == k
  {
  }

  /** I2C_check reports the device absent exactly when all eleven probes fail. */
  lemma CheckFailsIffAllFail(probes: seq<Status>, start: nat)
    ensures FailedProbes(probes, start, MaxProbes) == MaxProbes <==>
      forall j :: start <= j < start + MaxProbes ==> ProbeAt(probes, j) != Ok
  {
    if forall j :: start <= j < start + MaxProbes ==> ProbeAt(probes, j) != Ok {
      FailedProbesUnique(probes, start, MaxProbes, MaxProbes);
    }
  }

  /** One device-ready probe of `addr` as I2C_check makes it. */
  function Probe(addr: uint16): Event
  {
    ProbeReady(addr, ProbeTrials, ProbeTimeoutMs)
  }

  /** `n` failed probes, each followed by its 500 ms delay. */
  function FailedProbeTrace(addr: uint16, n: nat): (r: seq<Event>)
    ensures |r| == 2 * n
  {
    if n == 0 then [] else FailedProbeTrace(addr, n - 1) + [Probe(addr), Delay(RetryDelayMs)]
  }

  /** `n` LED toggles, each followed by its 100 ms delay. */
  function BlinkTrace(n: nat): (r: seq<Event>)
    ensures |r| == 2 * n
  {
    if n == 0 then [] else BlinkTrace(n - 1) + [LedToggle, Delay(BlinkDelayMs)]
  }

  /** The actions of I2C_check when `k` probes fail before the first success (`k` == 11: none succeeds). */
  function CheckTrace(addr: uint16, k: nat): (r: seq<Event>)
    requires k <= MaxProbes
    ensures k < MaxProbes ==> |r| == 2 * k + 1 && r[2 * k] == Probe(addr)
    ensures k == MaxProbes ==> |r| == 2 * (MaxProbes + BlinkCount)
  {
    if k < MaxProbes then FailedProbeTrace(addr, k) + [Probe(addr)]
    else FailedProbeTrace(addr, k) + BlinkTrace(BlinkCount)
  }

  /** How often `e` occurs in `es`. */
  function CountOf(e: Event, es: seq<Event>): nat
  {
    if es == [] then 0 else CountOf(e, es[..|es| - 1]) + (if es[|es| - 1] == e then 1 else 0)
  }

  lemma {:induction false} CountOfAppend(e: Event, a: seq<Event>, b: seq<Event>)
    ensures CountOf(e, a + b) == CountOf(e, a) + CountOf(e, b)
    decreases |b|
  {
    if b == [] {
      assert a + b == a;
    } else {
      assert (a + b)[..|a + b| - 1] == a + b[..|b| - 1];
      CountOfAppend(e, a, b[..|b| - 1]);
    }
  }

  /** The LED level after `es`, starting from `level`. */
  function LedAfter(level: bool, es: seq<Event>): bool
  {
    if es == [] then level
    else
      var before := LedAfter(level, es[..|es| - 1]);
      match es[|es| - 1]
      case LedWrite(on) => on
      case LedToggle => !before
      case _ => before
  }

  lemma {:induction false} LedAfterAppend(level: bool, a: seq<Event>, b: seq<Event>)
    ensures LedAfter(level, a + b) == LedAfter(LedAfter(level, a), b)
    decreases |b|
  {
    if b == [] {
      assert a + b == a;
    } else {
      assert (a + b)[..|a + b| - 1] == a + b[..|b| - 1];
      LedAfterAppend(level, a, b[..|b| - 1]);
    }
  }

  lemma CountOfPair(e: Event, x: Event, y: Event)
    ensures CountOf(e, [x]) == (if x == e then 1 else 0)
    ensures CountOf(e, [x, y]) == (if x == e then 1 else 0) + (if y == e then 1 else 0)
  {
    assert [x, y][..1] == [x];
    assert [x][..0] == [];
  }

  lemma LedAfterPair(level: bool, x: Event, y: Event)
    requires !x.LedWrite? && !y.LedWrite?
    ensures LedAfter(level, [x]) == (if x == LedToggle then !level else level)
    ensures LedAfter(level, [x, y]) == (if (x == LedToggle) != (y == LedToggle) then !level else level)
  {
    assert [x, y][..1] == [x];
    assert [x][..0] == [];
  }

  lemma {:induction false} FailedProbeTraceFacts(addr: uint16, n: nat)
    ensures CountOf(Probe(addr), FailedProbeTrace(addr, n)) == n
    ensures CountOf(Delay(RetryDelayMs), FailedProbeTrace(addr, n)) == n
    ensures CountOf(LedToggle, FailedProbeTrace(addr, n)) == 0
    ensures forall level :: LedAfter(level, FailedProbeTrace(addr, n)) == level
  {
    if n > 0 {
      FailedProbeTraceFacts(addr, n - 1);
      var pre, step := FailedProbeTrace(addr, n - 1), [Probe(addr), Delay(RetryDelayMs)];
      CountOfPair(Probe(addr), Probe(addr), Delay(RetryDelayMs));
      CountOfPair(Delay(RetryDelayMs), Probe(addr), Delay(RetryDelayMs));
      CountOfPair(LedToggle, Probe(addr), Delay(RetryDelayMs));
      CountOfAppend(Probe(addr), pre, step);
      CountOfAppend(Delay(RetryDelayMs), pre, step);
      CountOfAppend(LedToggle, pre, step);
      forall level ensures LedAfter(level, pre + step) == level {
        LedAfterAppend(level, pre, step);
        LedAfterPair(LedAfter(level, pre), Probe(addr), Delay(RetryDelayMs));
      }
    }
  }

  lemma {:induction false} BlinkTraceFacts(n: nat)
    ensures CountOf(LedToggle, BlinkTrace(n)) == n
    ensures CountOf(Delay(RetryDelayMs), BlinkTrace(n)) == 0
    ensures forall addr :: CountOf(Probe(addr), BlinkTrace(n)) == 0
    ensures forall level :: LedAfter(level, BlinkTrace(n)) == (if n % 2 == 0 then level else !level)
  {
    if n > 0 {
      BlinkTraceFacts(n - 1);
      var pre, step := BlinkTrace(n - 1), [LedToggle, Delay(BlinkDelayMs)];
      CountOfPair(LedToggle, LedToggle, Delay(BlinkDelayMs));
      CountOfPair(Delay(RetryDelayMs), LedToggle, Delay(BlinkDelayMs));
      CountOfAppend(LedToggle, pre, step);
      CountOfAppend(Delay(RetryDelayMs), pre, step);
      forall addr ensures CountOf(Probe(addr), pre + step) == 0 {
        CountOfPair(Probe(addr), LedToggle, Delay(BlinkDelayMs));
        CountOfAppend(Probe(addr), pre, step);
      }
      forall level ensures LedAfter(level, pre + step) == (if n % 2 == 0 then level else !level) {
        LedAfterAppend(level, pre, step);
        LedAfterPair(LedAfter(level, pre), LedToggle, Delay(BlinkDelayMs));
      }
    }
  }

  /**
   * What I2C_check does, counted: at most eleven probes (one more than the
   * failures when one succeeds), exactly one 500 ms delay per failed probe,
   * ten LED toggles only when all probes fail, and the LED ends at the
   * level it started from.
   */
  lemma CheckTraceCounts(addr: uint16, k: nat)
    requires k <= MaxProbes
    ensures var t := CheckTrace(addr, k);
      && CountOf(Probe(addr), t) == (if k < MaxProbes then k + 1 else MaxProbes)
      && CountOf(Delay(RetryDelayMs), t) == k
      && CountOf(LedToggle, t) == (if k < MaxProbes then 0 else BlinkCount)
      && forall level :: LedAfter(level, t) == level
  {
    FailedProbeTraceFacts(addr, k);
    if k < MaxProbes {
      var pre, last := FailedProbeTrace(addr, k), [Probe(addr)];
      CountOfPair(Probe(addr), Probe(addr), Probe(addr));
      CountOfPair(Delay(RetryDelayMs), Probe(addr), Probe(addr));
      CountOfPair(LedToggle, Probe(addr), Probe(addr));
      CountOfAppend(Probe(addr), pre, last);
      CountOfAppend(Delay(RetryDelayMs), pre, last);
      CountOfAppend(LedToggle, pre, last);
      forall level ensures LedAfter(level, pre + last) == level {
        LedAfterAppend(level, pre, last);
        LedAfterPair(LedAfter(level, pre), Probe(addr), Probe(addr));
      }
    } else {
      var pre, blink := FailedProbeTrace(addr, k), BlinkTrace(BlinkCount);
      BlinkTraceFacts(BlinkCount);
      CountOfAppend(Probe(addr), pre, blink);
      CountOfAppend(Delay(RetryDelayMs), pre, blink);
      CountOfAppend(LedToggle, pre, blink);
      forall level ensures LedAfter(level, pre + blink) == level {
        LedAfterAppend(level, pre, blink);
      }
    }
  }

  /** In a run of failed probes, every probe is immediately followed by a 500 ms delay. */
  lemma {:induction false} DelayFollowsFailedProbe(addr: uint16, n: nat)
    ensures var t := FailedProbeTrace(addr, n);
      |t| == 2 * n &&
      forall j :: 0 <= j < |t| && t[j] == Probe(addr) ==> j + 1 < |t| && t[j + 1] == Delay(RetryDelayMs)
  {
    if n > 0 {
      DelayFollowsFailedProbe(addr, n - 1);
      var pre := FailedProbeTrace(addr, n - 1);
      var t := FailedProbeTrace(addr, n);
      assert t == pre + [Probe(addr), Delay(RetryDelayMs)];
      forall j | 0 <= j < |t| && t[j] == Probe(addr)
        ensures j + 1 < |t| && t[j + 1] == Delay(RetryDelayMs)
      {
        if j < |pre| {
          assert pre[j] == t[j];
        }
      }
    }
  }

  /**
   * I2C_check: probe the device until it answers ready, at most eleven
   * times with 500 ms between attempts; if it never does, blink the LED
   * ten times and report it absent.
   */
  method Check(hal: Hal, target: byte) returns (ok: bool)
    modifies hal`trace, hal`probeNext, hal`led
    ensures var k := FailedProbes(hal.probes, old(hal.probeNext), MaxProbes);
      && ok == (k < MaxProbes)
      && hal.probeNext == old(hal.probeNext) + (if ok then k + 1 else MaxProbes)
      && hal.trace == old(hal.trace) + CheckTrace(target as uint16 * 2, k)
    ensures hal.led == old(hal.led)
  {
    var addr := target as uint16 * 2;
    ghost var t0 := hal.trace;
    var k := ProbeUntilReady(hal, addr);
    if k < MaxProbes {
      AppendAssoc(t0, FailedProbeTrace(addr, k), [Probe(addr)]);
      return true;
    }
    BlinkLed(hal);
    AppendAssoc(t0, FailedProbeTrace(addr, k), BlinkTrace(BlinkCount));
    return false;
  }

  lemma AppendAssoc(a: seq<Event>, b: seq<Event>, c: seq<Event>)
    ensures a + b + c == a + (b + c)
  {
  }

  /**
   * The retry loop of I2C_check: probe until one succeeds or eleven have
   * failed; every failed probe is followed by its delay.  The result is the
   * number of failures.
   */
  method ProbeUntilReady(hal: Hal, addr: uint16) returns (k: nat)
    modifies hal`trace, hal`probeNext
    ensures k == FailedProbes(hal.probes, old(hal.probeNext), MaxProbes)
    ensures hal.probeNext == old(hal.probeNext) + (if k < MaxProbes then k + 1 else MaxProbes)
    ensures k < MaxProbes ==> hal.trace == old(hal.trace) + FailedProbeTrace(addr, k) + [Probe(addr)]
    ensures k == MaxProbes ==> hal.trace == old(hal.trace) + FailedProbeTrace(addr, k)
  {
    ghost var t0, p0 := hal.trace, hal.probeNext;
    k := 0;
    while true
      invariant k <= MaxRetries
      invariant hal.probeNext == p0 + k
      invariant forall j :: p0 <= j < p0 + k ==> ProbeAt(hal.probes, j) != Ok
      invariant hal.trace == t0 + FailedProbeTrace(addr, k)
      decreases MaxRetries - k
    {
      var status := hal.IsDeviceReady(addr, ProbeTrials, ProbeTimeoutMs);
      if status == Ok {
        FailedProbesUnique(hal.probes, p0, MaxProbes, k);
        return;
      }
      hal.DelayMs(RetryDelayMs);
      assert hal.trace == t0 + FailedProbeTrace(addr, k + 1);
      k := k + 1;
      if k > MaxRetries {
        FailedProbesUnique(hal.probes, p0, MaxProbes, k);
        return;
      }
    }
  }

  /** The failure signal of I2C_check: ten LED toggles, 100 ms apart. */
  method BlinkLed(hal: Hal)
    modifies hal`trace, hal`led
    ensures hal.trace == old(hal.trace) + BlinkTrace(BlinkCount)
    ensures hal.led == old(hal.led)
  {
    for i := 0 to BlinkCount
      invariant hal.trace == old(hal.trace) + BlinkTrace(i)
      invariant hal.led == (if i % 2 == 0 then old(hal.led) else !old(hal.led))
    {
      hal.ToggleLed();
      hal.DelayMs(BlinkDelayMs);
    }
  }

  /**
   * I2C_init: configure the handle and initialise the peripheral; if
   * that fails report failure without probing, otherwise report whether
   * the sensor at 0x18 answers.
   */
  method Init(hal: Hal) returns (ok: bool)
    modifies hal`trace, hal`probeNext, hal`led, hal`config
    ensures hal.config == DemoConfig
    ensures hal.led == old(hal.led)
    ensures hal.initStatus != Ok ==>
      !ok && hal.probeNext == old(hal.probeNext) && hal.trace == old(hal.trace) + [BusInit(DemoConfig)]
    ensures hal.initStatus == Ok ==>
      var k := FailedProbes(hal.probes, old(hal.probeNext), MaxProbes);
      && ok == (k < MaxProbes)
      && hal.probeNext == old(hal.probeNext) + (if ok then k + 1 else MaxProbes)
      && hal.trace == old(hal.trace) + [BusInit(DemoConfig)] + CheckTrace(Mcp9808.BusAddress as uint16, k)
  {
    hal.Configure(DemoConfig);
    var status := hal.I2cInit();
    if status != Ok {
      return false;
    }
    ok := Check(hal, Mcp9808.Address);
  }
}
