/** The early character-device draft of machox2_driver.c: a read and a write
    on the global machxo2_str, guarded by bounds tests.

    machxo2_str is declared as an array of TEXTLENGTH `char *`, not of
    `char`, so the bytes the read copies out are those of the `char *`
    entries, which a global starts with as zero and nothing ever assigns. Its address
    is never NULL: the read's `machxo2_str != NULL` always holds and the
    write's `machxo2_str == NULL` never does. When a guard fails, both
    functions fall off the end of a non-void function, so what the caller
    gets back is unspecified: `None` below. */
module Machox2Draft {
  import opened Kernel

  const TextLength := 100              // TEXTLENGTH
  const EINVAL := 22
  /** The size of one `char *`: an assumption of the model (8, as on a 64-bit
      build); the source does not fix it. */
  const CharPtrSize := 8
  /** Whether the address of machxo2_str is NULL: an array's never is. */
  const StrIsNull := false

  // ---------------------------------------------------------------- machxo2_read

  /** The guard of machxo2_read: the array test, and 0 < count < 100. */
  predicate ReadServed(strIsNull: bool, count: nat) {
    !strIsNull && count != 0 && count < TextLength
  }

  /** What machxo2_read returns (None: no return value), the file position,
      and the user memory after the call. */
  datatype ReadOutcome = ReadOutcome(ret: Option<int>, pos: int, user: UserPtr)

  /** The user memory `buf` with its first `n` bytes replaced by those of `src`. */
  function Delivered(buf: UserPtr, src: seq<byte>, n: nat): (r: UserPtr)
    requires buf.UserPtr? ==> n <= |buf.mem| && n <= |src|
    requires buf.Null? ==> n == 0
    ensures r.UserPtr? == buf.UserPtr?
    ensures r.UserPtr? ==> |r.mem| == |buf.mem| && r.mem[..n] == src[..n] && r.mem[n..] == buf.mem[n..]
  {
    if buf.Null? then buf else UserPtr(src[..n] + buf.mem[n..])
  }

  /** The bytes a user address reaches: none for NULL. */
  function Reach(buf: UserPtr): nat {
    if buf.UserPtr? then |buf.mem| else 0
  }

  /** machxo2_read on the bytes `str` of machxo2_str and file position
      `pos`: copy_to_user of `count` bytes from the start of machxo2_str. */
  function DraftReadRun(strIsNull: bool, str: seq<byte>, buf: UserPtr, count: nat, pos: int,
                        answer: nat -> Reply, k: nat): Run<ReadOutcome>
    requires |str| >= TextLength
  {
    if !ReadServed(strIsNull, count) then Run(ReadOutcome(None, pos, buf), [])
    else
      var left := Uncopied(answer(k).code, count, Reach(buf));
      var user := Delivered(buf, str, count - left);
      if left != 0 then Run(ReadOutcome(Some(-EINVAL), pos, user), [CopyToUser(count)])
      else Run(ReadOutcome(Some(count), count, user), [CopyToUser(count)])
  }

  /** machxo2_read serves exactly the requests with 0 < count < 100: those
      make one copy and return a value; the others make no call, leave the
      position and the user memory alone, and return nothing. */
  lemma DraftReadGuard(str: seq<byte>, buf: UserPtr, count: nat, pos: int, answer: nat -> Reply, k: nat)
    requires |str| >= TextLength
    ensures var r := DraftReadRun(StrIsNull, str, buf, count, pos, answer, k);
      (0 < count < TextLength <==> r.events == [CopyToUser(count)]) &&
      (0 < count < TextLength <==> r.value.ret.Some?) &&
      (!(0 < count < TextLength) ==> r == Run(ReadOutcome(None, pos, buf), []))
  {
  }

  /** A served read whose copy succeeds delivers the first `count` bytes of
      machxo2_str, whatever was written, sets the position to count and
      returns count. */
  lemma DraftReadDelivers(str: seq<byte>, buf: UserPtr, count: nat, pos: int, answer: nat -> Reply, k: nat)
    requires |str| >= TextLength && ReadServed(StrIsNull, count)
    requires buf.UserPtr? && count <= |buf.mem| && answer(k).code <= 0
    ensures var r := DraftReadRun(StrIsNull, str, buf, count, pos, answer, k);
      r.value.ret == Some(count) && r.value.pos == count && r.value.user.UserPtr? &&
      |r.value.user.mem| == |buf.mem| &&
      r.value.user.mem[..count] == str[..count] && r.value.user.mem[count..] == buf.mem[count..]
  {
  }

  /** A served read whose copy comes up short returns -EINVAL and leaves the
      position; a NULL buffer or one shorter than count always does. */
  lemma DraftReadFault(str: seq<byte>, buf: UserPtr, count: nat, pos: int, answer: nat -> Reply, k: nat)
    requires |str| >= TextLength && ReadServed(StrIsNull, count)
    requires Uncopied(answer(k).code, count, Reach(buf)) != 0 || Reach(buf) < count
    ensures var r := DraftReadRun(StrIsNull, str, buf, count, pos, answer, k);
      r.value.ret == Some(-EINVAL) && r.value.pos == pos
  {
  }

  // ---------------------------------------------------------------- machxo2_write

  /** The guard of machxo2_write: the array test, a non-NULL buffer, and
      0 < count < 100. */
  predicate WriteServed(strIsNull: bool, buf: UserPtr, count: nat) {
    strIsNull && buf.UserPtr? && count != 0 && count < TextLength
  }

  /** What machxo2_write returns (None: no return value), the file position,
      and the bytes of machxo2_str after the call. */
  datatype WriteOutcome = WriteOutcome(ret: Option<int>, pos: int, str: seq<byte>)

  /** machxo2_write on the bytes `str` of machxo2_str and file position
      `pos`: copy_from_user of `count` bytes to the start of machxo2_str,
      with no clearing first. */
  function DraftWriteRun(strIsNull: bool, str: seq<byte>, buf: UserPtr, count: nat, pos: int,
                         answer: nat -> Reply, k: nat): Run<WriteOutcome>
    requires |str| >= TextLength
  {
    if !WriteServed(strIsNull, buf, count) then Run(WriteOutcome(None, pos, str), [])
    else
      var left := Uncopied(answer(k).code, count, |buf.mem|);
      var stored := buf.mem[..count - left] + str[count - left..];
      if left != 0 then Run(WriteOutcome(Some(-EINVAL), pos, stored), [CopyFromUser(count)])
      else Run(WriteOutcome(Some(count), count, stored), [CopyFromUser(count)])
  }

  /** Because machxo2_str is never NULL, machxo2_write never stores
      anything: it makes no call, leaves machxo2_str and the position as they
      were and returns nothing. */
  lemma DraftWriteStoresNothing(str: seq<byte>, buf: UserPtr, count: nat, pos: int, answer: nat -> Reply, k: nat)
    requires |str| >= TextLength
    ensures DraftWriteRun(StrIsNull, str, buf, count, pos, answer, k) == Run(WriteOutcome(None, pos, str), [])
  {
  }

  /** Were the guard to let a write through, a successful copy would put the
      user's count bytes at the start of machxo2_str and keep the bytes after
      them; a failed copy returns -EINVAL. */
  lemma DraftWriteIfServed(str: seq<byte>, buf: UserPtr, count: nat, pos: int, answer: nat -> Reply, k: nat)
    requires |str| >= TextLength && WriteServed(true, buf, count)
    ensures var w := DraftWriteRun(true, str, buf, count, pos, answer, k);
      var left := Uncopied(answer(k).code, count, |buf.mem|);
      w.events == [CopyFromUser(count)] && |w.value.str| == |str| &&
      w.value.str[..count - left] == buf.mem[..count - left] && w.value.str[count..] == str[count..] &&
      (left == 0 <==> w.value.ret == Some(count)) &&
      (left != 0 <==> w.value.ret == Some(-EINVAL))
  {
    var w := DraftWriteRun(true, str, buf, count, pos, answer, k);
    var left := Uncopied(answer(k).code, count, |buf.mem|);
    assert w.value.str[count..] == str[count..];
  }

  /** Every byte of a zeroed machxo2_str that a read delivers is zero, and
      after any write it is still zeroed: the draft can only ever hand out
      zeroes. */
  lemma DraftReadsZeros(str: seq<byte>, buf: UserPtr, count: nat, pos: int, wbuf: UserPtr, wcount: nat,
                        wpos: int, answer: nat -> Reply, k: nat, k2: nat)
    requires |str| >= TextLength && forall j :: 0 <= j < |str| ==> str[j] == 0
    ensures var after := DraftWriteRun(StrIsNull, str, wbuf, wcount, wpos, answer, k).value.str;
      after == str &&
      var r := DraftReadRun(StrIsNull, after, buf, count, pos, answer, k2);
      var copied := count - Uncopied(answer(k2).code, count, Reach(buf));
      r.value.user.UserPtr? ==> forall j :: 0 <= j < copied && ReadServed(StrIsNull, count) ==> r.value.user.mem[j] == 0
  {
    var r := DraftReadRun(StrIsNull, str, buf, count, pos, answer, k2);
    var copied := count - Uncopied(answer(k2).code, count, Reach(buf));
    if r.value.user.UserPtr? && ReadServed(StrIsNull, count) {
      forall j | 0 <= j < copied ensures r.value.user.mem[j] == 0 {
        assert r.value.user.mem[j] == r.value.user.mem[..copied][j];
      }
    }
  }

  // ---------------------------------------------------------------- the device

  /** The draft's state: the kernel it calls, the bytes of machxo2_str, and
      the outcome of the address test on it. */
  class Device {
    const kernel: Kernel
    const str: array<byte>
    const strIsNull: bool

    /** machxo2_str holds TEXTLENGTH `char *` entries. */
    predicate Valid() {
      str.Length == TextLength * CharPtrSize
    }

    /** The module as loaded: machxo2_str, a global, starts zeroed. */
    constructor (kernel: Kernel)
      ensures this.kernel == kernel && Valid() && fresh(str) && strIsNull == StrIsNull
      ensures forall j :: 0 <= j < str.Length ==> str[j] == 0
    {
      this.kernel := kernel;
      str := new byte[TextLength * CharPtrSize](_ => 0);
      strIsNull := StrIsNull;
    }

    /** machxo2_read: `user` is the user memory after the call. */
    method Read(buf: UserPtr, count: nat, pos: int) returns (ret: Option<int>, newPos: int, user: UserPtr)
      requires Valid()
      modifies kernel
      ensures var r := DraftReadRun(strIsNull, str[..], buf, count, pos, kernel.answer, |old(kernel.trace)|);
        kernel.trace == old(kernel.trace) + r.events && ret == r.value.ret && newPos == r.value.pos &&
        user == r.value.user
    {
      if !(!strIsNull && count != 0 && count < TextLength) {
        return None, pos, buf;
      }
      var r := kernel.Call(CopyToUser(count));
      var left := Uncopied(r.code, count, Reach(buf));
      user := Delivered(buf, str[..], count - left);
      if left != 0 {
        return Some(-EINVAL), pos, user;
      }
      return Some(count), count, user;
    }

    /** machxo2_write. */
    method Write(buf: UserPtr, count: nat, pos: int) returns (ret: Option<int>, newPos: int)
      requires Valid()
      modifies kernel, str
      ensures var w := DraftWriteRun(strIsNull, old(str[..]), buf, count, pos, kernel.answer, |old(kernel.trace)|);
        kernel.trace == old(kernel.trace) + w.events && ret == w.value.ret && newPos == w.value.pos &&
        str[..] == w.value.str
    {
      if !(strIsNull && buf.UserPtr? && count != 0 && count < TextLength) {
        return None, pos;
      }
      var r := kernel.Call(CopyFromUser(count));
      var left := Uncopied(r.code, count, |buf.mem|);
      forall j | 0 <= j < count - left {
        str[j] := buf.mem[j];
      }
      assert str[..] == buf.mem[..count - left] + old(str[..])[count - left..];
      if left != 0 {
        return Some(-EINVAL), pos;
      }
      return Some(count), count;
    }
  }
}
