/**
 * The MCP9808 register driver: byte-level encoding and decoding of the
 * sensor's register map, and the bus transactions of its public calls.
 *
 * Temperatures are integers in sixteenths of a degree Celsius, which is
 * exact for every value the driver can produce (it only ever divides a
 * 12-bit count by 16.0, subtracts that from 256.0, or returns a small
 * status code).  Bit masks on unsigned values are written arithmetically:
 * `x & (2^k - 1)` is `x % 2^k`, `x >> k` is `x / 2^k`, a test of bit k is
 * `(x / 2^k) % 2 == 1`.
 */
module Mcp9808 {
  import opened Hal

  /** The sensor's 7-bit I2C address. */
  const Address: byte := 0x18
  /** `MCP9808_ADDR << 1`, the form every HAL call takes. */
  const BusAddress: byte := 0x30

  const RegConfig: byte := 0x01
  const RegUpperTemp: byte := 0x02
  const RegLowerTemp: byte := 0x03
  const RegCritTemp: byte := 0x04
  const RegAmbientTemp: byte := 0x05
  const RegManufId: byte := 0x06
  const RegDeviceId: byte := 0x07

  /** Mask that clears CONFIG bit 5, the interrupt-clear bit, on read-back. */
  const ConfigClearAlert: byte := 0xDF
  /** Bit 5 itself, the one bit the mask drops. */
  const ConfigIntClear: byte := 0xFF - ConfigClearAlert
  const ConfigEnableAlert: byte := 0x08
  /** The low CONFIG byte the alert clear always writes: interrupt clear, polarity, mode. */
  const ConfigAlertBase: byte := 0x23

  const DefaultLowerLimitC: uint16 := 10
  const DefaultUpperLimitC: uint16 := 30
  const DefaultCritLimitC: uint16 := 50

  /** The identity the sensor must report. */
  const ManufacturerId: uint16 := 0x0054
  const DeviceId: uint16 := 0x0400

  /** What the temperature buffer is pre-filled with, high byte first. */
  const SentinelBytes: seq<byte> := [0x06, 0x30]
  const Sentinel: uint16 := Word(SentinelBytes[0], SentinelBytes[1])

  // ---------------------------------------------------------------------
  // Ambient temperature decoding
  // ---------------------------------------------------------------------

  /** `(hi << 8) | lo`: a register's big-endian 16-bit value. */
  function Word(hi: byte, lo: byte): (w: uint16)
    ensures w as int / 0x100 == hi as int && w as int % 0x100 == lo as int
  {
    (hi as int * 0x100 + lo as int) as uint16
  }

  /** `raw & 0x0FFF`: the temperature count in sixteenths of a degree. */
  function Magnitude(raw: uint16): int
  {
    raw as int % 0x1000
  }

  /** `raw & 0x1000`: the flag that folds the reading at 256 degrees. */
  predicate FoldBit(raw: uint16)
  {
    (raw as int / 0x1000) % 2 == 1
  }

  /**
   * MCP9808_get_temp in sixteenths: `(raw & 0x0FFF) / 16.0`, replaced by
   * `256.0` minus that when bit 12 is set.  The result is never negative
   * and never above 256 degrees.
   */
  function DecodeTemp(hi: byte, lo: byte): (t: int)
    ensures !FoldBit(Word(hi, lo)) ==> 0 <= t <= 0x0FFF
    ensures FoldBit(Word(hi, lo)) ==> 1 <= t <= 0x1000
  {
    var raw := Word(hi, lo);
    if FoldBit(raw) then 0x1000 - Magnitude(raw) else Magnitude(raw)
  }

  /** The low nibble of the high byte and the whole low byte form the count; bit 4 of the high byte is the fold flag. */
  lemma WordFields(hi: byte, lo: byte)
    ensures Magnitude(Word(hi, lo)) == (hi as int % 16) * 0x100 + lo as int
    ensures FoldBit(Word(hi, lo)) <==> (hi as int / 16) % 2 == 1
  {
    var q, r := hi as int / 16, hi as int % 16;
    var w := Word(hi, lo) as int;
    assert w == q * 0x1000 + (r * 0x100 + lo as int);
    assert 0 <= r * 0x100 + lo as int < 0x1000;
    assert w / 0x1000 == q && w % 0x1000 == r * 0x100 + lo as int;
  }

  /** Decoding in terms of the two bytes: the top three bits of the high byte play no part. */
  lemma DecodeFromBytes(hi: byte, lo: byte)
    ensures var m := (hi as int % 16) * 0x100 + lo as int;
      DecodeTemp(hi, lo) == if (hi as int / 16) % 2 == 1 then 0x1000 - m else m
  {
    WordFields(hi, lo);
  }

  /** Bits 13 to 15 of the register have no effect on the reading. */
  lemma DecodeIgnoresUnusedBits(hi: byte, hi': byte, lo: byte)
    requires hi as int % 32 == hi' as int % 32
    ensures DecodeTemp(hi, lo) == DecodeTemp(hi', lo)
  {
    DecodeFromBytes(hi, lo);
    DecodeFromBytes(hi', lo);
    LowFiveBits(hi as int);
    LowFiveBits(hi' as int);
  }

  /** Bits 0 to 4 of `h` decide both its low nibble and its bit 4. */
  lemma LowFiveBits(h: int)
    requires 0 <= h
    ensures h % 16 == (h % 32) % 16 && (h / 16) % 2 == (h % 32) / 16
  {
    var a, b := h / 32, h % 32;
    assert h == 32 * a + b;
    assert h == 16 * (2 * a + b / 16) + b % 16;
    assert h / 16 == 2 * a + b / 16;
  }

  /** The register bytes for count `m`, fold flag `fold` and unused top bits `unused`. */
  function AmbientBytes(m: int, fold: bool, unused: int): (b: seq<byte>)
    requires 0 <= m < 0x1000 && 0 <= unused < 8
    ensures |b| == 2
  {
    var raw := unused * 0x2000 + (if fold then 0x1000 else 0) + m;
    [(raw / 0x100) as byte, (raw % 0x100) as byte]
  }

  /**
   * The documented encoding, decoded: count `m` without the fold flag reads
   * as `m / 16` degrees, with it as `256 - m / 16`, whatever the unused bits.
   */
  lemma DecodeAmbientBytes(m: int, fold: bool, unused: int)
    requires 0 <= m < 0x1000 && 0 <= unused < 8
    ensures var b := AmbientBytes(m, fold, unused);
      DecodeTemp(b[0], b[1]) == if fold then 0x1000 - m else m
  {
    var b := AmbientBytes(m, fold, unused);
    var f := if fold then 1 else 0;
    var raw := unused * 0x2000 + f * 0x1000 + m;
    var hi := (unused * 2 + f) * 16 + m / 0x100;
    assert raw == hi * 0x100 + m % 0x100;
    SplitWord(raw, hi, m % 0x100);
    assert b[0] as int == hi && b[1] as int == m % 0x100;
    assert hi % 16 == m / 0x100 && hi / 16 == unused * 2 + f by {
      SplitNibble(hi, unused * 2 + f, m / 0x100);
    }
    DecodeFromBytes(b[0], b[1]);
  }

  /**
   * Sample readings: 0x01 0x90 is 25.0 degrees; 0x00 0x23 has bit 12
   * clear and is 2.1875 degrees; 0x10 0x23 has it set and folds to
   * 256 - 2.1875 = 253.8125 degrees.
   */
  lemma SampleReadings()
    ensures DecodeTemp(0x01, 0x90) == 25 * 16
    ensures DecodeTemp(0x00, 0x23) == 35
    ensures DecodeTemp(0x10, 0x23) == 256 * 16 - 35
  {
    DecodeFromBytes(0x01, 0x90);
    DecodeFromBytes(0x00, 0x23);
    DecodeFromBytes(0x10, 0x23);
  }

  lemma SplitWord(x: int, q: int, r: int)
    requires 0 <= r < 0x100 && x == q * 0x100 + r
    ensures x / 0x100 == q && x % 0x100 == r
  {
  }

  lemma SplitNibble(x: int, q: int, r: int)
    requires 0 <= r < 16 && x == q * 16 + r
    ensures x / 16 == q && x % 16 == r
  {
  }

  // ---------------------------------------------------------------------
  // MCP9808_read_temp
  // ---------------------------------------------------------------------

  /**
   * What MCP9808_read_temp returns, in sixteenths, given the reply to its
   * receive: the decoded reading, unless the buffer still holds the
   * sentinel 0x0630, in which case the receive status itself, as degrees.
   */
  function ReadTempOf(r: Reply): (t: int)
    ensures 0 <= t <= 0x1000
  {
    var hi, lo := DataOr(r, 0, SentinelBytes[0]), DataOr(r, 1, SentinelBytes[1]);
    if Word(hi, lo) == Sentinel then StatusCode(r.status) * 16 else DecodeTemp(hi, lo)
  }

  /** The transactions of MCP9808_read_temp: select the ambient register, read two bytes. */
  const ReadTempTrace: seq<Event> := [Transmit(BusAddress, [RegAmbientTemp], 200), Receive(BusAddress, 2, 500)]

  /** A receive that delivers a non-sentinel word yields its decoded temperature. */
  lemma ReadTempDecodes(r: Reply)
    requires |r.data| >= 2 && Word(r.data[0], r.data[1]) != Sentinel
    ensures ReadTempOf(r) == DecodeTemp(r.data[0], r.data[1])
  {
  }

  /** A receive that deposits nothing leaves the sentinel: the result is the status code, in degrees. */
  lemma ReadTempReportsStatus(r: Reply)
    requires |r.data| == 0
    ensures ReadTempOf(r) == StatusCode(r.status) * 16
  {
  }

  /**
   * A genuine reading of 99.0 degrees (raw 0x0630) cannot be told from an
   * untouched buffer: both come back as the status code HAL_OK, 0 degrees.
   */
  lemma ReadTempSentinelCollision()
    ensures DecodeTemp(0x06, 0x30) == 99 * 16
    ensures ReadTempOf(Reply(Ok, [0x06, 0x30])) == 0
    ensures ReadTempOf(Reply(Ok, [])) == 0
  {
    ReadTempDecodesNothing(Reply(Ok, [0x06, 0x30]));
    ReadTempReportsStatus(Reply(Ok, []));
  }

  lemma ReadTempDecodesNothing(r: Reply)
    requires |r.data| >= 2 && Word(r.data[0], r.data[1]) == Sentinel
    ensures ReadTempOf(r) == StatusCode(r.status) * 16
  {
  }

  // ---------------------------------------------------------------------
  // MCP9808_set_temp_limit
  // ---------------------------------------------------------------------

  /**
   * The 3-byte frame that sets register `reg` to `t` degrees:
   * `t &= 127; t <<= 4;` then the register address, `(t & 0xFF00) >> 8`
   * and `t & 0xFF`.
   */
  function ThresholdFrame(reg: byte, t: uint16): (f: seq<byte>)
    ensures |f| == 3 && f[0] == reg
  {
    var v := (t as int % 128) * 16;
    [reg, (v / 0x100) as byte, (v % 0x100) as byte]
  }

  /** An argument above 127 is truncated to its low 7 bits: `t` and `t & 127` write the same bytes. */
  lemma ThresholdClamps(reg: byte, t: uint16)
    ensures ThresholdFrame(reg, t) == ThresholdFrame(reg, (t as int % 128) as uint16)
  {
  }

  /** The high data byte is at most 0x07 and the low nibble of the low data byte (the fraction) is zero. */
  lemma ThresholdFrameShape(reg: byte, t: uint16)
    ensures ThresholdFrame(reg, t)[1] <= 0x07
    ensures ThresholdFrame(reg, t)[2] as int % 16 == 0
  {
  }

  /**
   * Reading the two data bytes of a threshold frame as a temperature gives
   * back exactly `t & 127` whole degrees, and never sets the fold bit.
   */
  lemma ThresholdRoundTrip(reg: byte, t: uint16)
    ensures var f := ThresholdFrame(reg, t);
      !FoldBit(Word(f[1], f[2])) && DecodeTemp(f[1], f[2]) == (t as int % 128) * 16
  {
    var f := ThresholdFrame(reg, t);
    var v := (t as int % 128) * 16;
    assert 0 <= v < 0x800;
    assert f[1] as int == v / 0x100 && f[2] as int == v % 0x100;
    assert f[1] as int * 0x100 + f[2] as int == v;
    assert Word(f[1], f[2]) as int == v;
    assert v / 0x1000 == 0 && v % 0x1000 == v;
  }

  /** Two arguments write the same frame exactly when they agree in their low 7 bits. */
  lemma ThresholdFrameInjective(reg: byte, t: uint16, u: uint16)
    ensures ThresholdFrame(reg, t) == ThresholdFrame(reg, u) <==> t as int % 128 == u as int % 128
  {
    if ThresholdFrame(reg, t) == ThresholdFrame(reg, u) {
      ThresholdRoundTrip(reg, t);
      ThresholdRoundTrip(reg, u);
    }
  }

  // ---------------------------------------------------------------------
  // MCP9808_clear_alert
  // ---------------------------------------------------------------------

  /** `config_data[2]`: 0x23, with MCP9808_CONFIG_ENABLE_ALERT OR-ed in (bit 3 of 0x23 is clear, so the OR adds 0x08). */
  function ConfigLsb(enable: bool): byte
  {
    if enable then ConfigAlertBase + ConfigEnableAlert else ConfigAlertBase
  }

  /** `b & 0xDF`: the byte with bit 5 cleared and every other bit kept. */
  function ClearBit5(b: byte): (r: byte)
    ensures (r as int / 32) % 2 == 0
    ensures r as int % 32 == b as int % 32 && r as int / 64 == b as int / 64
  {
    if (b as int / 32) % 2 == 1 then b - ConfigIntClear else b
  }

  /** The most significant CONFIG byte after the first read: `config_data[1]`, zero when nothing arrived. */
  function ReadMsb(r: Reply): byte
  {
    DataOr(r, 0, 0)
  }

  /** The LSB of the verifying read-back: `check_data[1]`, zero when it did not arrive. */
  function CheckLsb(r: Reply): byte
  {
    DataOr(r, 1, 0)
  }

  /** The frame that writes CONFIG back: register, the MSB as read, the new LSB. */
  function ClearAlertFrame(enable: bool, first: Reply): seq<byte>
  {
    [RegConfig, ReadMsb(first), ConfigLsb(enable)]
  }

  /** The read-modify-write half of MCP9808_clear_alert: read CONFIG, write the frame back. */
  function ConfigWriteTrace(enable: bool, first: Reply): seq<Event>
  {
    [Transmit(BusAddress, [RegConfig], 200), Receive(BusAddress, 2, 500),
     Transmit(BusAddress, ClearAlertFrame(enable, first), 200)]
  }

  /**
   * The verifying half: read CONFIG again and report a mismatch when the
   * read-back LSB differs from the written one with bit 5 cleared.
   */
  function ConfigCheckTrace(written: byte, second: Reply): seq<Event>
  {
    [Transmit(BusAddress, [RegConfig], 200), Receive(BusAddress, 2, 500)]
    + (if ClearBit5(written) != CheckLsb(second) then [ConfigMismatch(written, CheckLsb(second))] else [])
  }

  /** The actions of MCP9808_clear_alert, given the replies to its two receives. */
  function ClearAlertTrace(enable: bool, first: Reply, second: Reply): (r: seq<Event>)
    ensures 5 <= |r| <= 6
    ensures r[0] == r[3] == Transmit(BusAddress, [RegConfig], 200)
    ensures r[1] == r[4] == Receive(BusAddress, 2, 500)
  {
    ConfigWriteTrace(enable, first) + ConfigCheckTrace(ConfigLsb(enable), second)
  }

  /**
   * The written frame is `[0x01, MSB as read, 0x23 | (enable ? 0x08 : 0)]`:
   * bit 5 (clear the interrupt), polarity and comparator-off mode are always
   * set, the enable bit exactly when asked, and the LSB first read is not used.
   */
  lemma ClearAlertWrites(enable: bool, first: Reply, first': Reply, second: Reply)
    requires ReadMsb(first) == ReadMsb(first')
    ensures var t := ClearAlertTrace(enable, first, second);
      5 <= |t| && t[2] == Transmit(BusAddress, [0x01, ReadMsb(first), if enable then 0x2B else 0x23], 200)
    ensures ClearAlertTrace(enable, first, second) == ClearAlertTrace(enable, first', second)
    ensures (ConfigLsb(enable) as int / 32) % 2 == 1
    ensures (ConfigLsb(enable) as int / 8) % 2 == 1 <==> enable
  {
  }

  /** The MSB written back is the first byte the sensor sent, zero when it sent none. */
  lemma ReadMsbIsFirstByte(r: Reply)
    ensures ReadMsb(r) == if |r.data| > 0 then r.data[0] else 0
  {
  }

  /**
   * A mismatch is reported (one extra event, after the five transactions)
   * exactly when the read-back LSB is not 0x0B after enabling, 0x03 otherwise;
   * nothing else depends on the read-back.
   */
  lemma ClearAlertMismatch(enable: bool, first: Reply, second: Reply)
    ensures var t := ClearAlertTrace(enable, first, second);
      var expected: byte := if enable then 0x0B else 0x03;
      (|t| == 5 || |t| == 6)
      && (|t| == 6 <==> CheckLsb(second) != expected)
      && (|t| == 6 ==> t[5] == ConfigMismatch(ConfigLsb(enable), CheckLsb(second)))
  {
  }

  // ---------------------------------------------------------------------
  // MCP9808_init
  // ---------------------------------------------------------------------

  /** The identity word read into a zero-initialised buffer. */
  function IdWord(r: Reply): uint16
  {
    Word(DataOr(r, 0, 0), DataOr(r, 1, 0))
  }

  /** The check of MCP9808_init: manufacturer ID 0x0054 and device ID 0x0400. */
  predicate IdentityMatches(mid: Reply, did: Reply)
    ensures IdentityMatches(mid, did) ==> |mid.data| >= 2 && |did.data| >= 1
  {
    IdWord(mid) == ManufacturerId && IdWord(did) == DeviceId
  }

  /** The identity reads of MCP9808_init. */
  const IdentityTrace: seq<Event> :=
    [Transmit(BusAddress, [RegManufId], 100), Receive(BusAddress, 2, 100),
     Transmit(BusAddress, [RegDeviceId], 100), Receive(BusAddress, 2, 100)]

  /**
   * The sensor is accepted exactly when the buffers hold 0x00 0x54 and
   * 0x04 0x00, a byte that did not arrive reading as zero.
   */
  lemma IdentityExact(mid: Reply, did: Reply)
    ensures IdentityMatches(mid, did) <==>
      DataOr(mid, 0, 0) == 0x00 && DataOr(mid, 1, 0) == 0x54 &&
      DataOr(did, 0, 0) == 0x04 && DataOr(did, 1, 0) == 0x00
  {
  }

  /** A sensor that never answers (buffers left at zero) is rejected. */
  lemma SilentSensorRejected(mid: Reply, did: Reply)
    requires |mid.data| == 0 || |did.data| == 0
    ensures !IdentityMatches(mid, did)
  {
    IdentityExact(mid, did);
  }

  // ---------------------------------------------------------------------
  // The driver's state and its calls
  // ---------------------------------------------------------------------

  /** The driver: the bus it uses and the shadow copies of the three limits. */
  class Sensor {
    const hal: Hal
    var limitCritical: uint16
    var limitLower: uint16
    var limitUpper: uint16

    /** The shadows start with the initialisers as written: critical 10, lower 30, upper 50. */
    constructor (hal: Hal)
      ensures this.hal == hal
      ensures limitCritical == DefaultLowerLimitC
      ensures limitLower == DefaultUpperLimitC
      ensures limitUpper == DefaultCritLimitC
    {
      this.hal := hal;
      limitCritical := DefaultLowerLimitC;
      limitLower := DefaultUpperLimitC;
      limitUpper := DefaultCritLimitC;
    }

    /** Reads a register: writes its address, then receives two bytes into `buf`. */
    method ReadRegister(reg: byte, buf: array<byte>, off: nat, timeoutTx: nat, timeoutRx: nat) returns (status: Status)
      requires off + 2 <= buf.Length
      modifies hal`trace, hal`rxNext, buf
      ensures status == old(hal.NextReply()).status
      ensures buf[off] == DataOr(old(hal.NextReply()), 0, old(buf[off]))
      ensures buf[off + 1] == DataOr(old(hal.NextReply()), 1, old(buf[off + 1]))
      ensures forall j :: 0 <= j < buf.Length && j != off && j != off + 1 ==> buf[j] == old(buf[j])
      ensures hal.rxNext == old(hal.rxNext) + 1
      ensures hal.trace == old(hal.trace) + [Transmit(BusAddress, [reg], timeoutTx), Receive(BusAddress, 2, timeoutRx)]
    {
      hal.MasterTransmit(BusAddress, [reg], timeoutTx);
      status := hal.MasterReceive(BusAddress, buf, off, 2, timeoutRx);
    }

    /** MCP9808_init: reads both identity registers; on a match clears and enables the alert. */
    method Init() returns (ok: bool)
      modifies hal`trace, hal`rxNext
      ensures var i := old(hal.rxNext);
        ok == IdentityMatches(ReplyAt(hal.replies, i), ReplyAt(hal.replies, i + 1))
      ensures var i := old(hal.rxNext);
        if ok then
          hal.rxNext == i + 4 &&
          hal.trace == old(hal.trace) + IdentityTrace
                       + ClearAlertTrace(true, ReplyAt(hal.replies, i + 2), ReplyAt(hal.replies, i + 3))
        else
          hal.rxNext == i + 2 && hal.trace == old(hal.trace) + IdentityTrace
    {
      var mid := new byte[2];
      mid[0], mid[1] := 0, 0;
      var did := new byte[2];
      did[0], did[1] := 0, 0;
      var _ := ReadRegister(RegManufId, mid, 0, 100, 100);
      var _ := ReadRegister(RegDeviceId, did, 0, 100, 100);
      var midValue := Word(mid[0], mid[1]);
      var didValue := Word(did[0], did[1]);
      if midValue != ManufacturerId || didValue != DeviceId {
        return false;
      }
      ClearAlert(true);
      return true;
    }

    /** MCP9808_read_temp: the temperature in sixteenths, or the receive status if the sentinel survived. */
    method ReadTemp() returns (t: int)
      modifies hal`trace, hal`rxNext
      ensures t == ReadTempOf(old(hal.NextReply()))
      ensures hal.rxNext == old(hal.rxNext) + 1
      ensures hal.trace == old(hal.trace) + ReadTempTrace
    {
      var data := new byte[2];
      data[0], data[1] := 0x06, 0x30;
      var result := ReadRegister(RegAmbientTemp, data, 0, 200, 500);
      var raw := Word(data[0], data[1]);
      if raw == Sentinel {
        return StatusCode(result) * 16;
      }
      t := DecodeTemp(data[0], data[1]);
    }

    /** MCP9808_clear_alert: read-modify-write of CONFIG, then a verifying read. */
    method ClearAlert(enable: bool)
      modifies hal`trace, hal`rxNext
      ensures hal.rxNext == old(hal.rxNext) + 2
      ensures hal.trace == old(hal.trace)
        + ClearAlertTrace(enable, old(hal.NextReply()), ReplyAt(hal.replies, old(hal.rxNext) + 1))
    {
      var written := WriteAlertConfig(enable);
      CheckAlertConfig(written);
    }

    /** Reads CONFIG, forces its LSB to 0x23 (| 0x08 on enable) and writes it back; returns that LSB. */
    method WriteAlertConfig(enable: bool) returns (written: byte)
      modifies hal`trace, hal`rxNext
      ensures written == ConfigLsb(enable)
      ensures hal.rxNext == old(hal.rxNext) + 1
      ensures hal.trace == old(hal.trace) + ConfigWriteTrace(enable, old(hal.NextReply()))
    {
      ghost var first := hal.NextReply();
      var config := new byte[3];
      config[0], config[1], config[2] := 0, 0, 0;
      var reg := RegConfig;
      var _ := ReadRegister(reg, config, 1, 200, 500);
      config[0] := reg;
      config[2] := ConfigAlertBase;
      if enable {
        config[2] := config[2] + ConfigEnableAlert;
      }
      assert config[..] == ClearAlertFrame(enable, first);
      hal.MasterTransmit(BusAddress, config[..], 200);
      written := config[2];
    }

    /** Reads CONFIG back and reports a mismatch if its LSB is not `written & 0xDF`. */
    method CheckAlertConfig(written: byte)
      modifies hal`trace, hal`rxNext
      ensures hal.rxNext == old(hal.rxNext) + 1
      ensures hal.trace == old(hal.trace) + ConfigCheckTrace(written, old(hal.NextReply()))
    {
      ghost var second := hal.NextReply();
      var check := new byte[2];
      check[0], check[1] := 0, 0;
      var _ := ReadRegister(RegConfig, check, 0, 200, 500);
      assert check[1] == CheckLsb(second);
      if ClearBit5(written) != check[1] {
        hal.ReportConfigMismatch(written, check[1]);
      }
    }

    /** MCP9808_set_upper_limit: remembers the argument as given, programs register 0x02. */
    method SetUpperLimit(t: uint16)
      modifies this`limitUpper, hal`trace
      ensures limitUpper == t
      ensures limitLower == old(limitLower) && limitCritical == old(limitCritical)
      ensures hal.trace == old(hal.trace) + [Transmit(BusAddress, ThresholdFrame(RegUpperTemp, t), 200)]
    {
      limitUpper := t;
      SetTempLimit(RegUpperTemp, t);
    }

    /** MCP9808_set_critical_limit: remembers the argument as given, programs register 0x04. */
    method SetCriticalLimit(t: uint16)
      modifies this`limitCritical, hal`trace
      ensures limitCritical == t
      ensures limitLower == old(limitLower) && limitUpper == old(limitUpper)
      ensures hal.trace == old(hal.trace) + [Transmit(BusAddress, ThresholdFrame(RegCritTemp, t), 200)]
    {
      limitCritical := t;
      SetTempLimit(RegCritTemp, t);
    }

    /** MCP9808_set_lower_limit: remembers the argument as given, programs register 0x03. */
    method SetLowerLimit(t: uint16)
      modifies this`limitLower, hal`trace
      ensures limitLower == t
      ensures limitUpper == old(limitUpper) && limitCritical == old(limitCritical)
      ensures hal.trace == old(hal.trace) + [Transmit(BusAddress, ThresholdFrame(RegLowerTemp, t), 200)]
    {
      limitLower := t;
      SetTempLimit(RegLowerTemp, t);
    }

    /** MCP9808_set_temp_limit: one 3-byte write, no read-back. */
    method SetTempLimit(reg: byte, t: uint16)
      modifies hal`trace
      ensures hal.trace == old(hal.trace) + [Transmit(BusAddress, ThresholdFrame(reg, t), 200)]
    {
      var temp := t as int % 128;
      temp := temp * 16;
      var data := new byte[3];
      data[0], data[1], data[2] := 0, 0, 0;
      data[0] := reg;
      data[1] := (temp / 0x100) as byte;
      data[2] := (temp % 0x100) as byte;
      assert data[..] == ThresholdFrame(reg, t);
      hal.MasterTransmit(BusAddress, data[..], 200);
    }
  }
}
