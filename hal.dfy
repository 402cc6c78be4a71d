/**
 * The STM32 HAL services the demo calls, as one abstract object.
 *
 * The real HAL talks to the I2C peripheral, the GPIO port of the user LED
 * and the NVIC.  Here every such call appends an `Event` to one trace, so
 * the order of bus transactions, pin writes, interrupt masking and delays can
 * be specified.  What the hardware answers is scripted: the receive replies
 * and the device-ready probe results are fixed sequences, consumed through a
 * cursor, and the result of `HAL_I2C_Init` is a constant.
 */
module Hal {

  /** `uint8_t`. */
  newtype byte = x: int | 0 <= x < 0x100

  /** `uint16_t`. */
  newtype uint16 = x: int | 0 <= x < 0x1_0000

  /** `HAL_StatusTypeDef`. */
  datatype Status = Ok | Error | Busy | Timeout

  /** The numeric value of a status, as `(double)status` sees it (HAL_OK = 0 ... HAL_TIMEOUT = 3). */
  function StatusCode(s: Status): (c: nat)
    ensures c <= 3
    ensures c == 0 <==> s == Ok
  {
    match s
    case Ok => 0
    case Error => 1
    case Busy => 2
    case Timeout => 3
  }

  /**
   * What one `HAL_I2C_Master_Receive` does: the status it returns and the
   * bytes the peripheral deposits in the caller's buffer.  Fewer bytes than
   * were asked for (none, on a failed transfer) leave the rest of the buffer
   * as it was.
   */
  datatype Reply = Reply(status: Status, data: seq<byte>)

  /** The reply once the script is exhausted: a time-out that deposits nothing. */
  const Silent := Reply(Timeout, [])

  function ReplyAt(replies: seq<Reply>, i: nat): (r: Reply)
    ensures i >= |replies| ==> r == Silent
  {
    if i < |replies| then replies[i] else Silent
  }

  /** The device-ready result once the script is exhausted. */
  function ProbeAt(probes: seq<Status>, i: nat): (s: Status)
    ensures i >= |probes| ==> s == Error
  {
    if i < |probes| then probes[i] else Error
  }

  /**
   * The buffer after a receive of `n` bytes at offset `off` that deposited
   * `data`: position `off + j` holds `data[j]` for every `j < n` that `data`
   * covers, and every other byte is unchanged.
   */
  function Fill(buf: seq<byte>, off: nat, n: nat, data: seq<byte>): (r: seq<byte>)
    requires off + n <= |buf|
    ensures |r| == |buf|
    ensures forall i :: 0 <= i < |buf| ==>
      r[i] == if off <= i < off + n && i - off < |data| then data[i - off] else buf[i]
  {
    var k := if |data| < n then |data| else n;
    buf[..off] + data[..k] + buf[off + k..]
  }

  /** Byte `j` of a receive buffer whose byte `j` held `dflt` before the receive. */
  function DataOr(r: Reply, j: nat, dflt: byte): byte
  {
    if j < |r.data| then r.data[j] else dflt
  }

  datatype AddressingMode = SevenBit | TenBit

  /** The `Init` block of an `I2C_HandleTypeDef`. */
  datatype I2cConfig = I2cConfig(
    timing: nat,
    addressing: AddressingMode,
    dualAddress: bool,
    ownAddress1: nat,
    ownAddress2: nat,
    ownAddress2Masked: bool,
    generalCall: bool,
    noStretch: bool)

  /** A zero-initialised handle, as a C global starts out. */
  const ResetConfig := I2cConfig(0, SevenBit, false, 0, 0, false, false, false)

  /** One observable action of the HAL; `addr` is the shifted (8-bit form) bus address. */
  datatype Event =
    | Transmit(addr: byte, bytes: seq<byte>, timeout: nat)   // HAL_I2C_Master_Transmit
    | Receive(addr: byte, count: nat, timeout: nat)          // HAL_I2C_Master_Receive
    | ProbeReady(device: uint16, trials: nat, timeout: nat)  // HAL_I2C_IsDeviceReady
    | BusInit(config: I2cConfig)                             // HAL_I2C_Init
    | Delay(ms: nat)                                         // HAL_Delay
    | LedWrite(on: bool)                                     // HAL_GPIO_WritePin on the LED
    | LedToggle                                              // HAL_GPIO_TogglePin on the LED
    | IrqEnable                                              // HAL_NVIC_EnableIRQ(MCP_INT_IRQ)
    | IrqDisable                                             // HAL_NVIC_DisableIRQ(MCP_INT_IRQ)
    | ConfigMismatch(written: byte, readBack: byte)          // the driver's server_error report

  class Hal {
    /** Everything done so far, oldest first. */
    var trace: seq<Event>
    /** Scripted receive replies; `rxNext` is the next one to hand out. */
    const replies: seq<Reply>
    var rxNext: nat
    /** Scripted device-ready results; `probeNext` is the next one. */
    const probes: seq<Status>
    var probeNext: nat
    /** What `HAL_I2C_Init` returns. */
    const initStatus: Status
    /** The `Init` block of the global I2C handle. */
    var config: I2cConfig
    /** Level of the user LED pin. */
    var led: bool
    /** Whether the sensor's interrupt line is enabled in the NVIC. */
    var irqEnabled: bool

    constructor (replies: seq<Reply>, probes: seq<Status>, initStatus: Status)
      ensures this.replies == replies && this.probes == probes && this.initStatus == initStatus
      ensures trace == [] && rxNext == 0 && probeNext == 0
      ensures config == ResetConfig && !led && !irqEnabled
    {
      this.replies := replies;
      this.probes := probes;
      this.initStatus := initStatus;
      trace := [];
      rxNext := 0;
      probeNext := 0;
      config := ResetConfig;
      led := false;
      irqEnabled := false;
    }

    /** The reply the next receive hands back. */
    function NextReply(): Reply
      reads this
    {
      ReplyAt(replies, rxNext)
    }

    method MasterTransmit(addr: byte, bytes: seq<byte>, timeout: nat)
      modifies this`trace
      ensures trace == old(trace) + [Transmit(addr, bytes, timeout)]
    {
      trace := trace + [Transmit(addr, bytes, timeout)];
    }

    /** Receives `n` bytes into `buf[off..off + n]`. */
    method MasterReceive(addr: byte, buf: array<byte>, off: nat, n: nat, timeout: nat) returns (status: Status)
      requires off + n <= buf.Length
      modifies this`trace, this`rxNext, buf
      ensures status == old(NextReply()).status
      ensures buf[..] == Fill(old(buf[..]), off, n, old(NextReply()).data)
      ensures rxNext == old(rxNext) + 1
      ensures trace == old(trace) + [Receive(addr, n, timeout)]
    {
      var r := NextReply();
      var k := if |r.data| < n then |r.data| else n;
      for j := 0 to k
        invariant rxNext == old(rxNext) && trace == old(trace)
        invariant forall i :: 0 <= i < buf.Length ==>
          buf[i] == if off <= i < off + j then r.data[i - off] else old(buf[i])
      {
        buf[off + j] := r.data[j];
      }
      status := r.status;
      rxNext := rxNext + 1;
      trace := trace + [Receive(addr, n, timeout)];
    }

    method IsDeviceReady(addr: uint16, trials: nat, timeout: nat) returns (status: Status)
      modifies this`trace, this`probeNext
      ensures status == ProbeAt(probes, old(probeNext))
      ensures probeNext == old(probeNext) + 1
      ensures trace == old(trace) + [ProbeReady(addr, trials, timeout)]
    {
      status := ProbeAt(probes, probeNext);
      probeNext := probeNext + 1;
      trace := trace + [ProbeReady(addr, trials, timeout)];
    }

    method I2cInit() returns (status: Status)
      modifies this`trace
      ensures status == initStatus
      ensures trace == old(trace) + [BusInit(config)]
    {
      status := initStatus;
      trace := trace + [BusInit(config)];
    }

    method Configure(c: I2cConfig)
      modifies this`config
      ensures config == c
    {
      config := c;
    }

    method DelayMs(ms: nat)
      modifies this`trace
      ensures trace == old(trace) + [Delay(ms)]
    {
      trace := trace + [Delay(ms)];
    }

    method WriteLed(on: bool)
      modifies this`trace, this`led
      ensures led == on
      ensures trace == old(trace) + [LedWrite(on)]
    {
      led := on;
      trace := trace + [LedWrite(on)];
    }

    method ToggleLed()
      modifies this`trace, this`led
      ensures led == !old(led)
      ensures trace == old(trace) + [LedToggle]
    {
      led := !led;
      trace := trace + [LedToggle];
    }

    method EnableIrq()
      modifies this`trace, this`irqEnabled
      ensures irqEnabled
      ensures trace == old(trace) + [IrqEnable]
    {
      irqEnabled := true;
      trace := trace + [IrqEnable];
    }

    method DisableIrq()
      modifies this`trace, this`irqEnabled
      ensures !irqEnabled
      ensures trace == old(trace) + [IrqDisable]
    {
      irqEnabled := false;
      trace := trace + [IrqDisable];
    }

    method ReportConfigMismatch(written: byte, readBack: byte)
      modifies this`trace
      ensures trace == old(trace) + [ConfigMismatch(written, readBack)]
    {
      trace := trace + [ConfigMismatch(written, readBack)];
    }
  }
}
