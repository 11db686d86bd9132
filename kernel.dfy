/** The kernel services the MachXO2 drivers call, seen from the driver.

    Every call the drivers make into the kernel (an I2C or SMBus transfer,
    taking or releasing the device semaphore, a copy between kernel and user
    memory, an adapter capability check, an allocation) is recorded as one
    `Event` in an ordered trace. The kernel's answer to the event at trace
    position `j` is `answer(j)`: an arbitrary, scripted oracle, so that every
    outcome the real bus, scheduler or memory manager could produce is covered.
 */
module Kernel {

  /** Register addresses and register values travel as unsigned bytes. */
  type byte = b: int | 0 <= b < 0x100
  type word = w: int | 0 <= w < 0x1_0000

  datatype Option<T> = None | Some(value: T)

  /** 2 to the power n: the weight of bit n, and what a shift by n scales by. */
  function Pow2(n: nat): (p: nat)
    ensures p >= 1
  {
    if n == 0 then 1 else 2 * Pow2(n - 1)
  }

  /** A shift by m + n scales by the product of a shift by m and one by n. */
  lemma {:induction false} Pow2Add(m: nat, n: nat)
    ensures Pow2(m + n) == Pow2(m) * Pow2(n)
  {
    if m > 0 {
      Pow2Add(m - 1, n);
    }
  }

  /** One bus transaction, as the driver asks for it. */
  datatype Txn =
    | MasterSend(bytes: seq<byte>)                   // i2c_master_send
    | MasterRecv(len: nat)                           // i2c_master_recv
    | SmbusReadByte(reg: byte)                       // i2c_smbus_read_byte_data
    | SmbusReadWordSwapped(reg: byte)                // i2c_smbus_read_word_swapped
    | SmbusWriteByte(reg: byte, value: byte)         // i2c_smbus_write_byte_data
    | SmbusWriteWordSwapped(reg: byte, wordValue: word)  // i2c_smbus_write_word_swapped

  /** One call from a driver into the kernel. */
  datatype Event =
    | Xfer(txn: Txn)
    | SemDown                  // down_interruptible on the device semaphore
    | SemUp                    // up on the device semaphore
    | CopyFromUser(count: nat) // copy_from_user of `count` bytes
    | CopyToUser(count: nat)   // copy_to_user of `count` bytes
    | CheckFunctionality       // i2c_check_functionality for SMBus byte and word data
    | Kzalloc                  // devm_kzalloc of the per-client record

  /** The kernel's answer to one call: `code` is the C return value of the
      kernel function; `first` and `second` are the bytes it leaves in the
      caller's receive buffer, in the order they came off the bus. For
      SemDown, code 0 means acquired and anything else interrupted; for the
      user copies, code is the number of bytes that could not be copied; for
      CheckFunctionality and Kzalloc, a code other than 0 means supported or
      allocated. */
  datatype Reply = Reply(code: int, first: byte, second: byte)

  /** A user-space address: NULL, or the user memory it can reach. */
  datatype UserPtr = Null | UserPtr(mem: seq<byte>)

  /** What a driver operation did: its result and the calls it made, in order. */
  datatype Run<T> = Run(value: T, events: seq<Event>)

  /** The run `r` preceded by the calls `before`. */
  function Then<T>(before: seq<Event>, r: Run<T>): (s: Run<T>)
  {
    Run(r.value, before + r.events)
  }

  /** Storing `x` at index `i` of a sequence whose first `i` elements are `p`
      leaves a sequence whose first `i + 1` elements are `p + [x]`. */
  lemma PrefixUpdate(s: seq<byte>, p: seq<byte>, i: nat, x: byte)
    requires i < |s| && s[..i] == p
    ensures s[i := x][..i + 1] == p + [x]
  {
  }

  lemma ConcatAssoc<T>(a: seq<T>, b: seq<T>, c: seq<T>)
    ensures a + (b + c) == (a + b) + c
  {
  }

  /** A run `whole` known to be the calls `done` followed by the run `rest`,
      ending a trace that so far holds t0, then done, then rest's calls: the
      trace is t0 followed by whole's calls, and whole's result is rest's. */
  lemma RunEnds<T>(t0: seq<Event>, done: seq<Event>, whole: Run<T>, rest: Run<T>, trace: seq<Event>)
    requires whole == Run(rest.value, done + rest.events)
    requires trace == t0 + done + rest.events
    ensures trace == t0 + whole.events && whole.value == rest.value
  {
    ConcatAssoc(t0, done, rest.events);
  }

  /** Every call in `events` is a bus transfer. */
  predicate AllXfers(events: seq<Event>)
    decreases |events|
  {
    events == [] || (events[0].Xfer? && AllXfers(events[1..]))
  }

  /** The payloads of the i2c_master_send transfers in `events`, in order. */
  function Sends(events: seq<Event>): seq<seq<byte>> {
    if events == [] then []
    else if events[0].Xfer? && events[0].txn.MasterSend? then [events[0].txn.bytes] + Sends(events[1..])
    else Sends(events[1..])
  }

  lemma {:induction false} SendsAppend(a: seq<Event>, b: seq<Event>)
    ensures Sends(a + b) == Sends(a) + Sends(b)
  {
    if a == [] {
      assert a + b == b;
    } else {
      assert (a + b)[1..] == a[1..] + b;
      SendsAppend(a[1..], b);
    }
  }

  lemma {:induction false} AllXfersAppend(a: seq<Event>, b: seq<Event>)
    ensures AllXfers(a + b) <== AllXfers(a) && AllXfers(b)
    decreases |a|
  {
    if a == [] {
      assert a + b == b;
    } else {
      assert (a + b)[1..] == a[1..] + b;
      AllXfersAppend(a[1..], b);
    }
  }

  /** The replies at trace positions k .. k+n-1 all report success. */
  ghost predicate RepliesOk(answer: nat -> Reply, k: nat, n: nat)
    decreases n
  {
    n == 0 || (answer(k).code >= 0 && RepliesOk(answer, k + 1, n - 1))
  }

  lemma {:induction false} RepliesOkAppend(answer: nat -> Reply, k: nat, a: nat, b: nat)
    requires RepliesOk(answer, k, a) && RepliesOk(answer, k + a, b)
    ensures RepliesOk(answer, k, a + b)
    decreases a
  {
    if a > 0 {
      RepliesOkAppend(answer, k + 1, a - 1, b);
    }
  }

  /** Among calls that all succeeded, the last one succeeded. */
  lemma {:induction false} RepliesOkLast(answer: nat -> Reply, k: nat, n: nat)
    requires n >= 1
    ensures RepliesOk(answer, k, n) ==> answer(k + n - 1).code >= 0
    decreases n
  {
    if n > 1 {
      RepliesOkLast(answer, k + 1, n - 1);
    }
  }

  /** `code` is the negative result of the last of `events`, the calls made
      from trace position k on. */
  ghost predicate FailedLast(code: int, events: seq<Event>, answer: nat -> Reply, k: nat) {
    code < 0 && |events| >= 1 && answer(k + |events| - 1).code == code
  }

  /** A failure at the end of `after` is a failure at the end of
      `before + after`. */
  lemma FailedLastAfter(code: int, before: seq<Event>, after: seq<Event>, answer: nat -> Reply, k: nat)
    requires FailedLast(code, after, answer, k + |before|)
    ensures FailedLast(code, before + after, answer, k)
  {
    assert k + |before| + |after| - 1 == k + |before + after| - 1;
  }

  /** The calls `events` from trace position k on stopped at their first
      failure: every call but the last succeeded and the last one failed
      with `code`. */
  ghost predicate Failed(code: int, events: seq<Event>, answer: nat -> Reply, k: nat) {
    FailedLast(code, events, answer, k) && RepliesOk(answer, k, |events| - 1)
  }

  /** Successful calls followed by calls that stopped at their first failure
      stopped at that failure. */
  lemma FailedAfterOk(code: int, before: seq<Event>, after: seq<Event>, answer: nat -> Reply, k: nat)
    requires RepliesOk(answer, k, |before|) && Failed(code, after, answer, k + |before|)
    ensures Failed(code, before + after, answer, k)
  {
    FailedLastAfter(code, before, after, answer, k);
    RepliesOkAppend(answer, k, |before|, |after| - 1);
  }

  /** Calls whose last one failed did not all succeed. */
  lemma FailedNotOk(code: int, events: seq<Event>, answer: nat -> Reply, k: nat)
    requires FailedLast(code, events, answer, k)
    ensures !RepliesOk(answer, k, |events|)
  {
    RepliesOkLast(answer, k, |events|);
  }

  /** How many of `count` bytes a user copy left uncopied, given the kernel's
      return value `code` and the `avail` bytes the user side can reach: never
      more than asked for, and at least what lies beyond the reachable memory. */
  function Uncopied(code: int, count: nat, avail: nat): (left: nat)
    ensures left <= count && count - left <= avail
    ensures avail >= count && code <= 0 ==> left == 0
    ensures left == 0 ==> avail >= count
  {
    var lo := if avail >= count then 0 else count - avail;
    if code <= lo then lo else if code >= count then count else code
  }

  /** The kernel as the driver sees it: an oracle of answers and the trace of
      calls made so far. */
  class Kernel {
    const answer: nat -> Reply
    var trace: seq<Event>

    constructor (answer: nat -> Reply)
      ensures this.answer == answer && trace == []
    {
      this.answer := answer;
      trace := [];
    }

    /** Make one call: it is appended to the trace and answered by the oracle. */
    method Call(e: Event) returns (r: Reply)
      modifies this
      ensures trace == old(trace) + [e]
      ensures r == answer(|old(trace)|)
    {
      r := answer(|trace|);
      trace := trace + [e];
    }
  }
}
