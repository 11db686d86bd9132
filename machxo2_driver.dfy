/** The character-device driver of machxo2_driver.c as imperative code: each
    method makes the driver's calls into the kernel one by one and is proved
    to make exactly the calls, and return exactly the values, that the
    functions of Machxo2Spec describe. */
module Machxo2 {
  import opened Kernel
  import opened Machxo2Spec

  /** The driver's state: the kernel it talks to (the I2C client of
      machxo2_dev and its semaphore, the user copies) and the global text
      buffer machxo2_str. */
  class Driver {
    const kernel: Kernel
    const text: array<byte>

    /** machxo2_str has TEXTLENGTH bytes. */
    predicate Valid() {
      text.Length == TextLength
    }

    /** The driver as loaded: machxo2_str, a global, starts zeroed. */
    constructor (kernel: Kernel)
      ensures this.kernel == kernel && Valid() && fresh(text)
      ensures forall j :: 0 <= j < TextLength ==> text[j] == 0
    {
      this.kernel := kernel;
      text := new byte[TextLength](_ => 0);
    }

    /** machxo2_set_register: send the pair (reg, val); a failed send
        returns its code, a successful one 0. */
    method SetRegister(reg: byte, val: byte) returns (retval: int)
      modifies kernel
      ensures var r := SetRegisterRun(reg, val, kernel.answer, |old(kernel.trace)|);
        kernel.trace == old(kernel.trace) + r.events && retval == r.value
    {
      var sent := kernel.Call(Xfer(MasterSend([reg, val])));
      if sent.code < 0 {
        return sent.code;
      }
      return 0;
    }

    /** machxo2_get_register: send the address, then receive one byte into
        *val; `val` is *val before the call and `got` after it. */
    method GetRegister(reg: byte, val: byte) returns (retval: int, got: byte)
      modifies kernel
      ensures var r := GetRegisterRun(reg, kernel.answer, |old(kernel.trace)|);
        kernel.trace == old(kernel.trace) + r.events && retval == r.value.code &&
        got == (if r.value.data.Some? then r.value.data.value else val)
    {
      got := val;
      var sent := kernel.Call(Xfer(MasterSend([reg])));
      if sent.code < 0 {
        return sent.code, got;
      }
      var received := kernel.Call(Xfer(MasterRecv(1)));
      if received.code < 0 {
        return received.code, got;
      }
      return 0, received.first;
    }

    /** machxo2_config: walk its 13-entry table. */
    method Config() returns (retval: int)
      modifies kernel
      ensures var r := ConfigRun(kernel.answer, |old(kernel.trace)|);
        kernel.trace == old(kernel.trace) + r.events && retval == r.value
    {
      retval := ConfigWalk(ConfigTable);
    }

    /** The loop of machxo2_config over a 13-entry table: read entry 10 and
        write every other one, and stop at the first failure. */
    method ConfigWalk(table: Table) returns (retval: int)
      requires |table| == 13
      modifies kernel
      ensures var r := ConfigFrom(table, 0, kernel.answer, |old(kernel.trace)|);
        kernel.trace == old(kernel.trace) + r.events && retval == r.value
    {
      ghost var t0 := kernel.trace;
      ghost var whole := ConfigFrom(table, 0, kernel.answer, |t0|);
      ghost var rest := whole;
      ghost var done: seq<Event> := [];
      var tmp: byte := 0;
      var i := 0;
      while i < 13
        invariant 0 <= i <= |table| == 13
        invariant kernel.trace == t0 + done
        invariant rest == ConfigFrom(table, i, kernel.answer, |kernel.trace|)
        invariant whole == Run(rest.value, done + rest.events)
      {
        ghost var k := |kernel.trace|;
        ghost var s := ConfigStep(table, i, kernel.answer, k);
        retval, tmp := ConfigEntry(table, i, tmp);
        ConfigFromStep(table, i, kernel.answer, k, |kernel.trace|);
        if retval < 0 {
          RunEnds(t0, done, whole, rest, kernel.trace);
          return retval;
        }
        rest := ConfigFrom(table, i + 1, kernel.answer, |kernel.trace|);
        ConcatAssoc(done, s.events, rest.events);
        ConcatAssoc(t0, done, s.events);
        done := done + s.events;
        i := i + 1;
      }
      RunEnds(t0, done, whole, rest, kernel.trace);
      return 0;
    }

    /** One pass of machxo2_config's loop: entry 10 is read through tmp,
        every other entry written. */
    method ConfigEntry(table: Table, i: nat, tmp0: byte) returns (retval: int, tmp: byte)
      requires i < |table|
      modifies kernel
      ensures var s := ConfigStep(table, i, kernel.answer, |old(kernel.trace)|);
        kernel.trace == old(kernel.trace) + s.events && retval == s.value
    {
      tmp := tmp0;
      if i == FilterResetIndex {
        retval, tmp := GetRegister(table[i].0, tmp);
      } else {
        retval := SetRegister(table[i].0, table[i].1);
      }
    }

    /** The do-while loop of machxo2_read_values (lines 352-367): read the
        status register until bit 0x08 or 0x40 shows, counting 100 us per
        read and giving up once more than 3000000 us are counted. */
    method Poll() returns (outcome: PollOutcome)
      modifies kernel
      ensures var p := PollFrom(kernel.answer, |old(kernel.trace)|, 0);
        kernel.trace == old(kernel.trace) + p.events && outcome == p.value
    {
      ghost var t0 := kernel.trace;
      ghost var whole := PollFrom(kernel.answer, |kernel.trace|, 0);
      ghost var rest := whole;
      ghost var done: seq<Event> := [];
      var status: byte := 0;
      var i := 0;
      while true
        invariant 0 <= i <= ReadTimeoutUs
        invariant kernel.trace == t0 + done
        invariant rest == PollFrom(kernel.answer, |kernel.trace|, i)
        invariant whole == Run(rest.value, done + rest.events)
        decreases ReadTimeoutUs - i
      {
        ghost var k := |kernel.trace|;
        var retval;
        retval, status := GetRegister(PollReg, status);
        ghost var g := GetRegisterRun(PollReg, kernel.answer, k);
        PollStep(kernel.answer, k, i, retval, status, |kernel.trace|);
        if retval < 0 {
          RunEnds(t0, done, whole, rest, kernel.trace);
          return PollError(retval);
        }
        i := i + ReadWaitTimeUs;
        if i > ReadTimeoutUs {
          RunEnds(t0, done, whole, rest, kernel.trace);
          return TimedOut;
        }
        if StatusReady(status) {
          RunEnds(t0, done, whole, rest, kernel.trace);
          return Ready;
        }
        rest := PollFrom(kernel.answer, |kernel.trace|, i);
        ConcatAssoc(done, g.events, rest.events);
        ConcatAssoc(t0, done, g.events);
        done := done + g.events;
      }
    }

    /** The for loop of machxo2_read_values (lines 369-376): read registers
        0x48 .. 0x4D into val[0] .. val[5], stopping at the first failure;
        `tmp` is the byte variable the reads go through. */
    method Burst(val: array<byte>, tmp0: byte) returns (retval: int, tmp: byte)
      requires val.Length == BurstLen
      modifies kernel, val
      ensures var b := BurstFrom(kernel.answer, |old(kernel.trace)|, 0, []);
        kernel.trace == old(kernel.trace) + b.events &&
        if retval < 0 then b.value == BurstError(retval)
        else retval == 0 && b.value == BurstOutcome.Burst(val[..]) && tmp == val[BurstLen - 1]
    {
      ghost var t0 := kernel.trace;
      ghost var whole := BurstFrom(kernel.answer, |kernel.trace|, 0, []);
      ghost var rest := whole;
      ghost var done: seq<Event> := [];
      ghost var vals: seq<byte> := [];
      tmp := tmp0;
      retval := 0;
      var i := 0;
      while i < 6
        invariant 0 <= i <= BurstLen && retval == 0 && |vals| == i
        invariant val[..i] == vals && (i > 0 ==> tmp == vals[i - 1])
        invariant kernel.trace == t0 + done
        invariant rest == BurstFrom(kernel.answer, |kernel.trace|, i, vals)
        invariant whole == Run(rest.value, done + rest.events)
      {
        ghost var k := |kernel.trace|;
        retval, tmp := ReadInto(val, i, tmp, vals);
        ghost var g := GetRegisterRun(PollReg + i, kernel.answer, k);
        BurstRead(kernel.answer, k, i, vals, retval, tmp, |kernel.trace|);
        if retval < 0 {
          RunEnds(t0, done, whole, rest, kernel.trace);
          return;
        }
        vals := vals + [tmp];
        rest := BurstFrom(kernel.answer, |kernel.trace|, i + 1, vals);
        ConcatAssoc(done, g.events, rest.events);
        ConcatAssoc(t0, done, g.events);
        done := done + g.events;
        i := i + 1;
      }
      assert val[..] == val[..BurstLen] && done + rest.events == done;
    }

    /** One pass of the burst loop: read register 0x48 + i through tmp
        and, when the read succeeds, store the byte in val[i]. */
    method ReadInto(val: array<byte>, i: nat, tmp0: byte, ghost vals: seq<byte>) returns (retval: int, tmp: byte)
      requires val.Length == BurstLen && i < BurstLen && val[..i] == vals
      modifies kernel, val
      ensures var g := GetRegisterRun(PollReg + i, kernel.answer, |old(kernel.trace)|);
        kernel.trace == old(kernel.trace) + g.events && retval == g.value.code &&
        (retval >= 0 ==> g.value.data == Some(tmp) && val[..i + 1] == vals + [tmp])
    {
      retval, tmp := GetRegister(PollReg + i, tmp0);
      if retval >= 0 {
        ghost var before := val[..];
        val[i] := tmp;
        PrefixUpdate(before, vals, i, tmp);
      }
    }

    /** Lines 379-384 of machxo2_read_values, after a complete burst `val`
        with `tmp` its last byte: re-read the status into tmp and decode. */
    method Decode(val: array<byte>, tmp: byte) returns (c: Cycle)
      requires val.Length == BurstLen && tmp == val[BurstLen - 1]
      modifies kernel
      ensures var r := DecodeStage(val[..], kernel.answer, |old(kernel.trace)|);
        kernel.trace == old(kernel.trace) + r.events && c == r.value
    {
      var retval, status := GetRegister(PollReg, tmp);
      c := Cycle(retval, Some(Decoded(ModeCode(status), Sample(val[0], val[1]))));
    }

    /** The burst of machxo2_read_values and what follows it. */
    method BurstThenDecode() returns (c: Cycle)
      modifies kernel
      ensures var r := BurstStage(kernel.answer, |old(kernel.trace)|);
        kernel.trace == old(kernel.trace) + r.events && c == r.value
    {
      ghost var t0 := kernel.trace;
      ghost var b := BurstFrom(kernel.answer, |t0|, 0, []);
      var val := new byte[BurstLen];
      var retval, tmp := Burst(val, 0);
      if retval < 0 {
        BurstStageFails(kernel.answer, |t0|, retval);
        return Cycle(retval, None);
      }
      ghost var v := val[..];
      ghost var t1 := kernel.trace;
      BurstStageDecodes(kernel.answer, |t0|, v, |t1|);
      c := Decode(val, tmp);
      ghost var d := DecodeStage(v, kernel.answer, |t1|);
      ConcatAssoc(t0, b.events, d.events);
    }

    /** What machxo2_read_values does while holding the semaphore: poll,
        then, once the status is ready, the burst and what follows it. */
    method LockedBody() returns (c: Cycle)
      modifies kernel
      ensures var r := CycleBody(kernel.answer, |old(kernel.trace)|);
        kernel.trace == old(kernel.trace) + r.events && c == r.value
    {
      ghost var t0 := kernel.trace;
      ghost var p := PollFrom(kernel.answer, |t0|, 0);
      var outcome := Poll();
      ghost var t1 := kernel.trace;
      CycleBodyEnds(kernel.answer, |t0|, |t1|);
      match outcome
      case PollError(e) =>
        c := Cycle(e, None);
      case TimedOut =>
        c := Cycle(-ETIMEDOUT, None);
      case Ready =>
        c := BurstThenDecode();
        ConcatAssoc(t0, p.events, BurstStage(kernel.answer, |t1|).events);
    }

    /** machxo2_read_values: an interrupted down_interruptible returns
        -ERESTARTSYS; otherwise the body runs and the semaphore is released
        on every path out of it. The decoded values are returned only to
        make them visible: the C function drops them, as it takes mach_data
        by value. */
    method ReadValues() returns (c: Cycle)
      modifies kernel
      ensures var r := ReadValuesRun(kernel.answer, |old(kernel.trace)|);
        kernel.trace == old(kernel.trace) + r.events && c == r.value
    {
      ghost var t0 := kernel.trace;
      var down := kernel.Call(SemDown);
      if down.code != 0 {
        return Cycle(-ERESTARTSYS, None);
      }
      ghost var t1 := kernel.trace;
      c := LockedBody();
      ghost var b := CycleBody(kernel.answer, |t1|);
      var _ := kernel.Call(SemUp);
      ReadValuesLocked(kernel.answer, |t0|, |t1|);
      ConcatAssoc(t0 + [SemDown], b.events, [SemUp]);
    }

    /** machxo2_read: call machxo2_read_values ten times and return the
        last result; nothing reaches the user's buffer. */
    method Read() returns (retval: int)
      modifies kernel
      ensures var r := ReadRun(kernel.answer, |old(kernel.trace)|);
        kernel.trace == old(kernel.trace) + r.events && retval == r.value
    {
      ghost var t0 := kernel.trace;
      ghost var done: seq<Event> := [];
      retval := 0;
      var i := 0;
      while i < 10
        invariant 0 <= i <= ReadCycles
        invariant kernel.trace == t0 + done
        invariant CyclesFrom(ReadValuesAt(kernel.answer), |t0|, i, 0) == Run(retval, done)
      {
        ghost var t1 := kernel.trace;
        ReadStep(kernel.answer, |t0|, i, 0, |t1|);
        var c := ReadValues();
        ghost var r := ReadValuesRun(kernel.answer, |t1|);
        retval := c.code;
        ConcatAssoc(t0, done, r.events);
        done := done + r.events;
        i := i + 1;
      }
    }

    /** machxo2_write: an accepted request clears machxo2_str and copies the
        user's bytes into it; `pos` is *ppos before the call and `newPos`
        after it. copy_from_user copies the bytes it can reach before it
        stops, so a failed copy leaves those bytes in the buffer. */
    method Write(buf: UserPtr, count: nat, pos: int) returns (ret: int, newPos: int)
      requires Valid()
      modifies kernel, text
      ensures var w := WriteRun(old(text[..]), pos, buf, count, kernel.answer, |old(kernel.trace)|);
        kernel.trace == old(kernel.trace) + w.events && ret == w.value.ret &&
        text[..] == w.value.text && newPos == w.value.pos
    {
      if !WriteAccepted(buf, count) {
        return 1, pos;
      }
      forall j | 0 <= j < TextLength {
        text[j] := 0;
      }
      var r := kernel.Call(CopyFromUser(count));
      var left := Uncopied(r.code, count, |buf.mem|);
      forall j | 0 <= j < count - left {
        text[j] := buf.mem[j];
      }
      assert text[..] == StoredText(buf.mem, count, left);
      if left != 0 {
        return -EINVAL, pos;
      }
      return count, count;
    }
  }
}
