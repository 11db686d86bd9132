/** The I2C client driver of machxo2_i2c_driver.c: the temperature
    conversion, the register-width dispatch of reads and writes, and the
    probe that configures an LM75-compatible sensor by kind. */
module Machxo2I2c {
  import opened Kernel
  import opened Lm75Ids

  const RegConf: byte := 0x48         // MACHXO2_REG_CONF of this file
  const Shutdown: bv8 := 0x01         // MACHXO2_SHUTDOWN
  const EIO := 5
  const ENOMEM := 12

  // ---------------------------------------------------------------- machxo2_reg_to_mc

  /** C's >> on a signed value as GCC compiles it: an arithmetic shift,
      which rounds toward minus infinity (Dafny's / by a positive divisor
      does too). */
  function Asr(x: int, n: nat): int {
    x / Pow2(n)
  }

  /** machxo2_reg_to_mc: a 16-bit register value, of which the top
      `resolution` bits are significant, in millidegrees Celsius. The shift
      counts 16 - resolution and resolution - 8 must not be negative. */
  function RegToMc(temp: int, resolution: nat): int
    requires -0x8000 <= temp < 0x8000 && 8 <= resolution <= 16
  {
    Asr(Asr(temp, 16 - resolution) * 1000, resolution - 8)
  }

  /** The register value with the bits below the resolution cleared. */
  function Truncated(temp: int, resolution: nat): int
    requires resolution <= 16
  {
    Asr(temp, 16 - resolution) * Pow2(16 - resolution)
  }

  lemma MulLe(d: int, x: int, y: int)
    requires d >= 0 && x <= y
    ensures d * x <= d * y
  {
    var e := y - x;
    assert d * y == d * x + d * e;
    assert d * e >= 0;
  }

  lemma DivMonotone(a: int, b: int, d: int)
    requires a <= b && d > 0
    ensures a / d <= b / d
  {
    var qa, qb := a / d, b / d;
    assert a == d * qa + a % d && 0 <= a % d < d;
    assert b == d * qb + b % d && 0 <= b % d < d;
    if qa > qb {
      MulLe(d, qb + 1, qa);
      assert false;
    }
  }

  /** Scaling both operands of a floor division by c > 0 changes nothing. */
  lemma DivScale(a: int, d: int, c: int)
    requires d > 0 && c > 0
    ensures (a * c) / (d * c) == a / d
  {
    var q, r := a / d, a % d;
    assert a == d * q + r && 0 <= r < d;
    var dc := d * c;
    assert dc > 0;
    assert a * c == dc * q + r * c by {
      assert a * c == (d * q + r) * c;
      assert (d * q + r) * c == d * q * c + r * c;
      assert d * q * c == dc * q;
    }
    assert 0 <= r * c by { MulLe(c, 0, r); }
    assert r * c < dc by { MulLe(c, r + 1, d); assert c * (r + 1) == r * c + c; }
    DivUnique(a * c, dc, q, r * c);
  }

  /** The quotient is the q of any a == d * q + r with 0 <= r < d. */
  lemma DivUnique(a: int, d: int, q: int, r: int)
    requires d > 0 && a == d * q + r && 0 <= r < d
    ensures a / d == q
  {
    var q', r' := a / d, a % d;
    assert a == d * q' + r' && 0 <= r' < d;
    if q' > q {
      assert d * (q + 1) == d * q + d;
      MulLe(d, q + 1, q');
      assert false;
    } else if q' < q {
      assert d * (q' + 1) == d * q' + d;
      MulLe(d, q' + 1, q);
      assert false;
    }
  }

  /** The value is the register value, truncated to the resolution, in
      units of 1/256 degree, times 1000: a value in millidegrees rounded
      toward minus infinity. */
  lemma RegToMcMillidegrees(temp: int, resolution: nat)
    requires -0x8000 <= temp < 0x8000 && 8 <= resolution <= 16
    ensures RegToMc(temp, resolution) == (Truncated(temp, resolution) * 1000) / 256
  {
    var x := Asr(temp, 16 - resolution);
    Pow2Add(resolution - 8, 16 - resolution);
    assert Pow2(resolution - 8) * Pow2(16 - resolution) == Pow2(8) == 256;
    DivScale(x * 1000, Pow2(resolution - 8), Pow2(16 - resolution));
    assert x * 1000 * Pow2(16 - resolution) == Truncated(temp, resolution) * 1000;
  }

  /** For a fixed resolution the conversion never decreases. */
  lemma RegToMcMonotone(t1: int, t2: int, resolution: nat)
    requires -0x8000 <= t1 <= t2 < 0x8000 && 8 <= resolution <= 16
    ensures RegToMc(t1, resolution) <= RegToMc(t2, resolution)
  {
    DivMonotone(t1, t2, Pow2(16 - resolution));
    var x1, x2 := Asr(t1, 16 - resolution), Asr(t2, 16 - resolution);
    MulLe(1000, x1, x2);
    DivMonotone(x1 * 1000, x2 * 1000, Pow2(resolution - 8));
  }

  /** The conversion stays within [-128000, 128000): -128 up to, but not
      including, +128 degrees. */
  lemma RegToMcRange(temp: int, resolution: nat)
    requires -0x8000 <= temp < 0x8000 && 8 <= resolution <= 16
    ensures -128000 <= RegToMc(temp, resolution) < 128000
  {
    var t := Truncated(temp, resolution);
    TruncatedRange(temp, resolution);
    RegToMcMillidegrees(temp, resolution);
    MulLe(1000, -0x8000, t);
    MulLe(1000, t, 0x7FFF);
    DivMonotone(-0x8000 * 1000, t * 1000, 256);
    DivMonotone(t * 1000, 0x7FFF * 1000, 256);
  }

  /** Truncation rounds toward minus infinity and stays in range. */
  lemma TruncatedRange(temp: int, resolution: nat)
    requires -0x8000 <= temp < 0x8000 && 8 <= resolution <= 16
    ensures -0x8000 <= Truncated(temp, resolution) <= temp
  {
    TruncatedAtMost(temp, resolution);
    TruncatedAtLeast(temp, resolution);
  }

  lemma TruncatedAtMost(temp: int, resolution: nat)
    requires resolution <= 16
    ensures Truncated(temp, resolution) <= temp
  {
    var p := Pow2(16 - resolution);
    assert temp == p * (temp / p) + temp % p;
  }

  lemma TruncatedAtLeast(temp: int, resolution: nat)
    requires -0x8000 <= temp && 8 <= resolution <= 16
    ensures -0x8000 <= Truncated(temp, resolution)
  {
    Pow2Split(resolution);
    FloorAtLeast(temp, Pow2(16 - resolution), Pow2(resolution - 8));
  }

  /** Rounding down to a multiple of a divisor p of 2^8 keeps a value of at
      least -2^15 at least -2^15. */
  lemma FloorAtLeast(temp: int, p: int, q: int)
    requires -0x8000 <= temp && p > 0 && q * p == 256
    ensures -0x8000 <= (temp / p) * p
  {
    var x := temp / p;
    var lo := -128 * q;
    assert -0x8000 == p * lo by {
      assert p * lo == -128 * (q * p);
    }
    DivUnique(-0x8000, p, lo, 0);
    DivMonotone(-0x8000, temp, p);
    MulLe(p, lo, x);
  }

  /** The two shifts of machxo2_reg_to_mc together divide by 2^8. */
  lemma Pow2Split(resolution: nat)
    requires 8 <= resolution <= 16
    ensures Pow2(resolution - 8) * Pow2(16 - resolution) == 256
  {
    Pow2Add(resolution - 8, 16 - resolution);
    assert Pow2(8) == 256;
  }

  // ---------------------------------------------------------------- read and write dispatch

  /** machxo2_i2c_read_value's choice: the configuration register is read as
      a byte, every other register as a byte-swapped word. */
  function ReadValueTxn(reg: byte): (t: Txn)
    ensures t.SmbusReadByte? <==> reg == RegConf
    ensures t.SmbusReadByte? || t.SmbusReadWordSwapped?
    ensures t.reg == reg
  {
    if reg == RegConf then SmbusReadByte(reg) else SmbusReadWordSwapped(reg)
  }

  /** What the SMBus read answered `r` returns: a negative error code, or
      the data, the first byte on the bus being the high one of a word. */
  function ReadValueResult(reg: byte, r: Reply): int {
    if r.code < 0 then r.code
    else if reg == RegConf then r.first
    else r.first * 0x100 + r.second
  }

  /** machxo2_i2c_read_value at trace position k. */
  function ReadValueRun(reg: byte, answer: nat -> Reply, k: nat): Run<int> {
    Run(ReadValueResult(reg, answer(k)), [Xfer(ReadValueTxn(reg))])
  }

  /** One transfer; a failure is passed on unchanged; a success is a byte for
      the configuration register and a 16-bit word for the others. */
  lemma ReadValueShape(reg: byte, answer: nat -> Reply, k: nat)
    ensures var r := ReadValueRun(reg, answer, k);
      |r.events| == 1 && r.events[0].Xfer? &&
      (r.value < 0 <==> answer(k).code < 0) &&
      (r.value < 0 ==> r.value == answer(k).code) &&
      (r.value >= 0 && reg == RegConf ==> r.value == answer(k).first) &&
      (r.value >= 0 && reg != RegConf ==>
        r.value / 0x100 == answer(k).first && r.value % 0x100 == answer(k).second) &&
      (r.value < 0x1_0000) && (reg == RegConf ==> r.value < 0x100)
  {
  }

  /** machxo2_i2c_write_value's choice: a byte for the configuration
      register (the u16 value passed as u8 keeps its low byte), a
      byte-swapped word for the others. */
  function WriteValueTxn(reg: byte, value: word): (t: Txn)
    ensures t.SmbusWriteByte? <==> reg == RegConf
    ensures t.SmbusWriteByte? ==> t.value == value % 0x100
    ensures t.SmbusWriteWordSwapped? ==> t.wordValue == value
    ensures t.SmbusWriteByte? || t.SmbusWriteWordSwapped?
  {
    if reg == RegConf then SmbusWriteByte(reg, value % 0x100) else SmbusWriteWordSwapped(reg, value)
  }

  /** machxo2_i2c_write_value at trace position k: it returns what the SMBus
      write returns. */
  function WriteValueRun(reg: byte, value: word, answer: nat -> Reply, k: nat): Run<int> {
    Run(answer(k).code, [Xfer(WriteValueTxn(reg, value))])
  }

  /** A byte written to the configuration register arrives unchanged. */
  lemma WriteValueByte(value: byte)
    ensures WriteValueTxn(RegConf, value) == SmbusWriteByte(RegConf, value)
  {
  }

  // ---------------------------------------------------------------- probe settings

  /** What the switch of machxo2_i2c_probe settles on for one kind. */
  datatype Settings = Settings(setMask: bv8, clrMask: bv8, resolution: nat,
                               resolutionLimits: nat, sampleTime: nat)

  /** The settings per kind, HZ being `hz` jiffies per second: the masks
      start at set 0 and clear MACHXO2_SHUTDOWN, the record at zero. */
  function KindSettings(kind: Kind, hz: nat): Settings {
    match kind
    case Adt75 => Settings(0x00, 0x21, 12, 0, hz / 8)
    case Ds1775 | Ds75 | Stds75 => Settings(0x40, 0x61, 11, 0, hz)
    case Ds7505 => Settings(0x60, 0x01, 12, 0, hz / 4)
    case G751 | Lm75 | Lm75a => Settings(0x00, 0x01, 9, 0, hz / 2)
    case Max6625 => Settings(0x00, 0x01, 9, 0, hz / 4)
    case Max6626 => Settings(0x00, 0x01, 12, 9, hz / 4)
    case Tcn75 => Settings(0x00, 0x01, 9, 0, hz / 8)
    case Mcp980x => Settings(0x60, 0x81, 12, 9, hz)
    case Tmp100 | Tmp101 => Settings(0x60, 0x81, 12, 0, hz)
    case Tmp105 | Tmp175 | Tmp275 | Tmp75 => Settings(0x60, 0x81, 12, 0, hz / 2)
  }

  /** The configuration byte probe leaves: status & ~clr_mask | set_mask. */
  function NewConf(status: bv8, s: Settings): bv8 {
    (status & !s.clrMask) | s.setMask
  }

  /** The computation of `new` in machxo2_i2c_probe, on the byte the
      SMBus read returned. */
  function ConfByte(status: byte, setMask: bv8, clrMask: bv8): byte {
    ((status as bv8 & !clrMask) | setMask) as int
  }

  /** The byte ConfByte returns has the bits NewConf computes. */
  lemma ConfByteBits(status: byte, s: Settings)
    ensures ConfByte(status, s.setMask, s.clrMask) as bv8 == NewConf(status as bv8, s)
  {
  }

  /** Every bit outside clr_mask and set_mask keeps its value, every bit of
      set_mask is set, and every bit of clr_mask outside set_mask cleared. */
  lemma NewConfBits(status: bv8, s: Settings)
    ensures NewConf(status, s) & !(s.clrMask | s.setMask) == status & !(s.clrMask | s.setMask)
    ensures NewConf(status, s) & s.setMask == s.setMask
    ensures NewConf(status, s) & (s.clrMask & !s.setMask) == 0
  {
  }

  /** Applying the masks a second time changes nothing. */
  lemma NewConfIdempotent(status: bv8, s: Settings)
    ensures NewConf(NewConf(status, s), s) == NewConf(status, s)
  {
  }

  /** Every kind clears the shutdown bit and none sets it, so probe always
      leaves the sensor running. */
  lemma KindClearsShutdown(kind: Kind, hz: nat, status: bv8)
    ensures var s := KindSettings(kind, hz);
      s.clrMask & Shutdown == Shutdown && s.setMask & Shutdown == 0
    ensures NewConf(status, KindSettings(kind, hz)) & Shutdown == 0
  {
  }

  /** The resolution is 9, 11 or 12 bits, and resolution_limits stays 0
      except for max6626 and mcp980x, where it is 9. */
  lemma KindResolution(kind: Kind, hz: nat)
    ensures KindSettings(kind, hz).resolution in {9, 11, 12}
    ensures KindSettings(kind, hz).resolutionLimits != 0 <==> kind == Max6626 || kind == Mcp980x
    ensures KindSettings(kind, hz).resolutionLimits in {0, 9}
  {
  }

  /** ds1775, ds75 and stds75 put bits 5-6 to 0b10 (11-bit mode); the kinds
      with 12 bits of resolution other than adt75 and max6626 put them to
      0b11. */
  lemma KindModeBits(kind: Kind, hz: nat, status: bv8)
    ensures kind in {Ds1775, Ds75, Stds75} ==> (NewConf(status, KindSettings(kind, hz)) >> 5) & 3 == 2
    ensures kind in {Ds7505, Mcp980x, Tmp100, Tmp101, Tmp105, Tmp175, Tmp275, Tmp75} ==>
      (NewConf(status, KindSettings(kind, hz)) >> 5) & 3 == 3
  {
  }

  /** mcp980x falls through to the tmp100 case and only adds
      resolution_limits = 9. */
  lemma Mcp980xFallsThrough(hz: nat)
    ensures KindSettings(Mcp980x, hz) == KindSettings(Tmp100, hz).(resolutionLimits := 9)
  {
  }

  // ---------------------------------------------------------------- probe

  /** The fields of struct machxo2_data that probe sets. */
  datatype Record = Record(origConf: byte, resolution: nat, resolutionLimits: nat, sampleTime: nat)

  /** What probe returns and, once the record is allocated, the record. */
  datatype ProbeResult = ProbeResult(ret: int, record: Option<Record>)

  /** The record right after the switch: zeroed by devm_kzalloc, then the
      kind's settings. */
  function SwitchedRecord(s: Settings): Record {
    Record(0, s.resolution, s.resolutionLimits, s.sampleTime)
  }

  /** machxo2_i2c_probe at trace position k. */
  function ProbeRun(kind: Kind, hz: nat, answer: nat -> Reply, k: nat): Run<ProbeResult> {
    ProbeWith(KindSettings(kind, hz), answer, k)
  }

  /** machxo2_i2c_probe at trace position k once the switch has chosen `s`. */
  function ProbeWith(s: Settings, answer: nat -> Reply, k: nat): Run<ProbeResult> {
    if answer(k).code == 0 then Run(ProbeResult(-EIO, None), [CheckFunctionality])
    else if answer(k + 1).code == 0 then Run(ProbeResult(-ENOMEM, None), [CheckFunctionality, Kzalloc])
    else Then([CheckFunctionality, Kzalloc], ConfigureRun(s, answer, k + 2))
  }

  /** The rest of machxo2_i2c_probe, from the read of the configuration
      register at trace position k on: the record is allocated by then. */
  function ConfigureRun(s: Settings, answer: nat -> Reply, k: nat): Run<ProbeResult> {
    var rd := ReadValueRun(RegConf, answer, k);
    if rd.value < 0 then Run(ProbeResult(rd.value, Some(SwitchedRecord(s))), rd.events)
    else
      var conf := ConfByte(answer(k).first, s.setMask, s.clrMask);
      var record := SwitchedRecord(s).(origConf := rd.value);
      if conf == rd.value then Run(ProbeResult(0, Some(record)), rd.events)
      else Run(ProbeResult(0, Some(record)), rd.events + WriteValueRun(RegConf, conf, answer, k + 1).events)
  }

  /** ConfigureRun once the read has failed. */
  lemma ConfigureFails(s: Settings, answer: nat -> Reply, k: nat)
    requires answer(k).code < 0
    ensures ConfigureRun(s, answer, k) ==
      Run(ProbeResult(answer(k).code, Some(SwitchedRecord(s))), ReadValueRun(RegConf, answer, k).events)
  {
  }

  /** ConfigureRun once the read has returned a byte, from which the masks
      give `conf`. */
  lemma ConfigureEnds(s: Settings, answer: nat -> Reply, k: nat, conf: byte)
    requires answer(k).code >= 0 && conf == ConfByte(answer(k).first, s.setMask, s.clrMask)
    ensures var c := ConfigureRun(s, answer, k);
      var rd := ReadValueRun(RegConf, answer, k);
      c.value == ProbeResult(0, Some(SwitchedRecord(s).(origConf := answer(k).first))) &&
      (conf == answer(k).first ==> c.events == rd.events) &&
      (conf != answer(k).first ==> c.events == rd.events + WriteValueRun(RegConf, conf, answer, k + 1).events)
  {
  }

  /** Without SMBus byte and word support, probe returns -EIO before any
      other call; without memory, -ENOMEM before any register access. */
  lemma ProbeEarlyExits(kind: Kind, hz: nat, answer: nat -> Reply, k: nat)
    ensures var p := ProbeRun(kind, hz, answer, k);
      answer(k).code == 0 ==> p == Run(ProbeResult(-EIO, None), [CheckFunctionality])
    ensures var p := ProbeRun(kind, hz, answer, k);
      answer(k).code != 0 && answer(k + 1).code == 0 ==>
        p == Run(ProbeResult(-ENOMEM, None), [CheckFunctionality, Kzalloc])
  {
  }

  /** A failed read of the configuration register is returned, with no
      write. */
  lemma ProbeReadFails(kind: Kind, hz: nat, answer: nat -> Reply, k: nat)
    requires answer(k).code != 0 && answer(k + 1).code != 0 && answer(k + 2).code < 0
    ensures var p := ProbeRun(kind, hz, answer, k);
      p.value == ProbeResult(answer(k + 2).code, Some(SwitchedRecord(KindSettings(kind, hz)))) &&
      p.events == [CheckFunctionality, Kzalloc, Xfer(SmbusReadByte(RegConf))]
  {
  }

  /** ProbeConfigures for any choice of masks. */
  lemma ProbeWithConfigures(s: Settings, answer: nat -> Reply, k: nat)
    requires answer(k).code != 0 && answer(k + 1).code != 0 && answer(k + 2).code >= 0
    ensures var p := ProbeWith(s, answer, k);
      var status := answer(k + 2).first;
      var conf := ConfByte(status, s.setMask, s.clrMask);
      var read := [CheckFunctionality, Kzalloc, Xfer(SmbusReadByte(RegConf))];
      p.value == ProbeResult(0, Some(SwitchedRecord(s).(origConf := status))) &&
      (conf == status ==> p.events == read) &&
      (conf != status ==> p.events == read + [Xfer(SmbusWriteByte(RegConf, conf))])
  {
    WriteValueByte(ConfByte(answer(k + 2).first, s.setMask, s.clrMask));
  }

  /** Once the configuration byte is read, probe returns 0 whatever the
      write returns; orig_conf holds the byte as read; the byte with the
      kind's masks applied is written back exactly when it differs, and
      then with the shutdown bit clear. */
  lemma ProbeConfigures(kind: Kind, hz: nat, answer: nat -> Reply, k: nat)
    requires answer(k).code != 0 && answer(k + 1).code != 0 && answer(k + 2).code >= 0
    ensures var p := ProbeRun(kind, hz, answer, k);
      var status := answer(k + 2).first;
      var conf := ConfByte(status, KindSettings(kind, hz).setMask, KindSettings(kind, hz).clrMask);
      var read := [CheckFunctionality, Kzalloc, Xfer(SmbusReadByte(RegConf))];
      p.value == ProbeResult(0, Some(SwitchedRecord(KindSettings(kind, hz)).(origConf := status))) &&
      (conf == status ==> p.events == read) &&
      (conf != status ==> p.events == read + [Xfer(SmbusWriteByte(RegConf, conf))]) &&
      conf as bv8 == NewConf(status as bv8, KindSettings(kind, hz)) &&
      conf as bv8 & Shutdown == 0
  {
    ProbeWithConfigures(KindSettings(kind, hz), answer, k);
    KindClearsShutdown(kind, hz, answer(k + 2).first as bv8);
    ConfByteBits(answer(k + 2).first, KindSettings(kind, hz));
  }

  // ---------------------------------------------------------------- the driver

  /** The fields of struct machxo2_data that probe fills in. */
  class ClientData {
    var origConf: byte
    var resolution: nat
    var resolutionLimits: nat
    var sampleTime: nat

    /** devm_kzalloc: every field zero. */
    constructor ()
      ensures origConf == 0 && resolution == 0 && resolutionLimits == 0 && sampleTime == 0
    {
      origConf, resolution, resolutionLimits, sampleTime := 0, 0, 0, 0;
    }

    /** The switch of machxo2_i2c_probe on a freshly zeroed record: the
        masks for the configuration register, and the record's fields. */
    method Switch(kind: Kind, hz: nat) returns (setMask: bv8, clrMask: bv8)
      requires resolutionLimits == 0
      modifies this
      ensures Settings(setMask, clrMask, resolution, resolutionLimits, sampleTime) == KindSettings(kind, hz)
      ensures origConf == old(origConf)
    {
      setMask := 0;
      clrMask := Shutdown;
      match kind {
        case Adt75 =>
          clrMask := clrMask | (1 << 5);
          resolution := 12;
          sampleTime := hz / 8;
        case Ds1775 | Ds75 | Stds75 =>
          clrMask := clrMask | (3 << 5);
          setMask := setMask | (2 << 5);
          resolution := 11;
          sampleTime := hz;
        case Ds7505 =>
          setMask := setMask | (3 << 5);
          resolution := 12;
          sampleTime := hz / 4;
        case G751 | Lm75 | Lm75a =>
          resolution := 9;
          sampleTime := hz / 2;
        case Max6625 =>
          resolution := 9;
          sampleTime := hz / 4;
        case Max6626 =>
          resolution := 12;
          resolutionLimits := 9;
          sampleTime := hz / 4;
        case Tcn75 =>
          resolution := 9;
          sampleTime := hz / 8;
        case Mcp980x =>
          // sets resolution_limits, then falls through to the tmp100 case
          resolutionLimits := 9;
          setMask := setMask | (3 << 5);
          resolution := 12;
          sampleTime := hz;
          clrMask := clrMask | (1 << 7);
        case Tmp100 | Tmp101 =>
          setMask := setMask | (3 << 5);
          resolution := 12;
          sampleTime := hz;
          clrMask := clrMask | (1 << 7);
        case Tmp105 | Tmp175 | Tmp275 | Tmp75 =>
          setMask := setMask | (3 << 5);
          clrMask := clrMask | (1 << 7);
          resolution := 12;
          sampleTime := hz / 2;
      }
    }

    function Snapshot(): Record
      reads this
    {
      Record(origConf, resolution, resolutionLimits, sampleTime)
    }
  }

  /** One bound I2C client: the kernel it calls and, once probe has
      allocated it, its client data (i2c_set_clientdata). */
  class Client {
    const kernel: Kernel
    var clientdata: ClientData?

    constructor (kernel: Kernel)
      ensures this.kernel == kernel && clientdata == null
    {
      this.kernel := kernel;
      clientdata := null;
    }

    /** machxo2_i2c_read_value. */
    method ReadValue(reg: byte) returns (v: int)
      modifies kernel
      ensures var r := ReadValueRun(reg, kernel.answer, |old(kernel.trace)|);
        v == r.value && kernel.trace == old(kernel.trace) + r.events
    {
      var r: Reply;
      if reg == RegConf {
        r := kernel.Call(Xfer(SmbusReadByte(reg)));
      } else {
        r := kernel.Call(Xfer(SmbusReadWordSwapped(reg)));
      }
      if r.code < 0 {
        v := r.code;
      } else if reg == RegConf {
        v := r.first;
      } else {
        v := r.first * 0x100 + r.second;
      }
    }

    /** machxo2_i2c_write_value. */
    method WriteValue(reg: byte, value: word) returns (v: int)
      modifies kernel
      ensures var r := WriteValueRun(reg, value, kernel.answer, |old(kernel.trace)|);
        v == r.value && kernel.trace == old(kernel.trace) + r.events
    {
      var r: Reply;
      if reg == RegConf {
        r := kernel.Call(Xfer(SmbusWriteByte(reg, value % 0x100)));
      } else {
        r := kernel.Call(Xfer(SmbusWriteWordSwapped(reg, value)));
      }
      v := r.code;
    }

    /** machxo2_i2c_probe for a device of kind `kind`, HZ being `hz`. */
    method Probe(kind: Kind, hz: nat) returns (ret: int)
      modifies this, kernel
      ensures var p := ProbeRun(kind, hz, kernel.answer, |old(kernel.trace)|);
        ret == p.value.ret && kernel.trace == old(kernel.trace) + p.events &&
        (p.value.record.None? ==> clientdata == old(clientdata)) &&
        (p.value.record.Some? ==>
          clientdata != null && fresh(clientdata) && clientdata.Snapshot() == p.value.record.value)
    {
      ghost var t0 := kernel.trace;
      ghost var k := |t0|;
      var ok := kernel.Call(CheckFunctionality);
      if ok.code == 0 {
        return -EIO;
      }
      var mem := kernel.Call(Kzalloc);
      if mem.code == 0 {
        return -ENOMEM;
      }
      var data := new ClientData();
      clientdata := data;
      var setMask, clrMask := data.Switch(kind, hz);
      ghost var c := ConfigureRun(KindSettings(kind, hz), kernel.answer, k + 2);
      ghost var t1 := kernel.trace;
      ret := Configure(data, setMask, clrMask, KindSettings(kind, hz));
      ConcatAssoc(t0, [CheckFunctionality, Kzalloc], c.events);
    }

    /** From the read of the configuration register on, with the masks
        and the record the switch produced for `s`. */
    method Configure(data: ClientData, setMask: bv8, clrMask: bv8, ghost s: Settings) returns (ret: int)
      requires setMask == s.setMask && clrMask == s.clrMask && data.Snapshot() == SwitchedRecord(s)
      modifies kernel, data
      ensures var c := ConfigureRun(s, kernel.answer, |old(kernel.trace)|);
        ret == c.value.ret && kernel.trace == old(kernel.trace) + c.events && c.value.record == Some(data.Snapshot())
    {
      ghost var t0 := kernel.trace;
      ghost var k := |t0|;
      ghost var rd := ReadValueRun(RegConf, kernel.answer, k);
      var status := ReadValue(RegConf);
      if status < 0 {
        ConfigureFails(s, kernel.answer, k);
        return status;
      }
      var first: byte := status;
      data.origConf := first;
      var conf := ConfByte(first, setMask, clrMask);
      ConfigureEnds(s, kernel.answer, k, conf);
      if first != conf {
        ghost var w := WriteValueRun(RegConf, conf, kernel.answer, k + 1);
        var _ := WriteValue(RegConf, conf);
        ConcatAssoc(t0, rd.events, w.events);
      }
      ret := 0;
    }
  }
}
