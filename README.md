# MachXO2 driver model

A Dafny model of the Linux kernel drivers for a Lattice MachXO2 device reached over I2C, with proofs about what they do:

- **The character-device driver** (`machxo2_driver.c`). It has register access, the 13-entry configuration sequence, and `machxo2_read_values`. That function takes the device semaphore, polls the status register, burst-reads six registers, re-reads the status and decodes a sample. It also has `machxo2_read`, which runs that ten times, and `machxo2_write`, the guarded copy into the 100-byte text buffer.
- **The LM75-style I2C client driver** (`machxo2_i2c_driver.c`). It has the millidegree conversion, the register-width dispatch of SMBus reads and writes, and the probe. The probe picks configuration masks, a resolution and a sample time per chip kind. It then rewrites the configuration byte only when that changes it.
- **The chip-kind enum and the I2C id table** (`machxo2_i2c_driver.h`).
- **The early draft character device** (`machox2_driver.c`), with its read and write guards.

The kernel is an environment (`kernel.dfy`):

- Every call a driver makes into it is appended as an `Event` to a trace. That covers an I2C or SMBus transfer, `down_interruptible`/`up`, `copy_from_user`/`copy_to_user`, `i2c_check_functionality` and `devm_kzalloc`.
- The answer to the call at trace position `j` is `answer(j)`, an arbitrary oracle. So every proof covers every behaviour of the bus, the scheduler and the memory manager.

Each driver operation has two forms:

- A pure function `…Run(answer, k)`, giving the value it returns and the calls it makes from trace position `k`.
- An imperative method on a class holding the driver's state, proved to append exactly those calls and to return exactly that value. Loops are `while` loops with invariants. The text buffers are arrays updated in place. The probe's per-client record is a class whose fields the switch assigns.

The lemmas state what the run functions amount to: the order of transfers, first-error propagation, loop bounds, mask algebra, the semaphore discipline and buffer contents.

Modelling choices:

- Bytes are the integers 0..255. Plain `char` is taken as unsigned.
- `machxo2_get_register` stores the received byte only when the receive succeeds. On failure the caller's variable keeps its old value, and the decoding uses it as is.
- The status poll reads register 0x48, the literal in the code, not `MACHXO2_REG_STATUS_REG` (0x46). It tests the budget before readiness, so a ready status on the 30001st read still times out.
- `MACHXO2_REG_CONF` is 0x48 in `machxo2_i2c_driver.c`, whose probe reads and writes it. `machxo2_driver.c` defines it as 0x46 but never uses it.

Three properties of the character driver's file operations are worth stating plainly:

- A rejected `machxo2_write` returns 1.
- A faulting copy in `machxo2_write` leaves the cleared buffer holding only the bytes copied before the fault.
- `machxo2_read` hands no sample to the user and never touches the user buffer: `mach_data` is passed by value.

## Model

| member | source | states |
|---|---|---|
| Machxo2Spec.I2cProbe | machxo2_driver.c:119-131 | the character driver's I2C probe makes no call; it accepts a client exactly when the client's address is MACHXO2_I2C_ADDRESS (0x48), and refuses any other with -ENODEV |
| Machxo2Spec.SetRegisterRun | machxo2_driver.c:152-165 | one send of exactly `[reg, val]`; the result is 0, or the send's negative code unchanged; a non-negative short count is success |
| Machxo2Spec.GetRegisterRun | machxo2_driver.c:177-196 | a send of `[reg]`, then a one-byte receive only if the send did not fail; the result is 0 or the code of the failing call, a failed send's code passed on unchanged; 0 only after both calls; a byte is delivered exactly when the result is 0 |
| Machxo2Spec.GetRegisterSends | machxo2_driver.c:181-186 | the only bytes a register read sends are the address |
| Machxo2.Driver.SetRegister | machxo2_driver.c:152-165 | the method makes the calls of SetRegisterRun and returns its value |
| Machxo2.Driver.GetRegister | machxo2_driver.c:177-196 | the method makes the calls of GetRegisterRun, returns its code, and leaves the received byte, or the old one when none arrived |
| Machxo2.Driver.Config | machxo2_driver.c:198-234 | the method makes the calls of ConfigRun on the 13-entry table and returns its value |
| Machxo2.Driver.ConfigWalk | machxo2_driver.c:219-233 | the for loop over any 13-entry table equals the walk ConfigFrom, with its early return |
| Machxo2.Driver.ConfigEntry | machxo2_driver.c:220-227 | one loop pass reads entry 10 through `tmp` and writes every other entry |
| Machxo2Spec.ConfigFromOrder | machxo2_driver.c:219-231 | from any entry on, the walk sends the entries' requests strictly in table order, none skipped or repeated |
| Machxo2Spec.ConfigFromCalls | machxo2_driver.c:219-231 | from any entry on, the walk makes a prefix of the entries' calls (a write is one send, entry 10 is its address then a one-byte receive), and all of them unless it fails |
| Machxo2Spec.ConfigTableCalls | machxo2_driver.c:203-217 | the calls of the 13-entry table are exactly ConfigCalls, the sequence written out by hand |
| Machxo2Spec.ConfigRunOrder | machxo2_driver.c:203-231 | machxo2_config sends a prefix of the 13 requests in order; its calls are a prefix of ConfigCalls; once the address of register 0x30 was sent successfully, the very next call is the one-byte receive; it makes only transfers and never returns a positive value |
| Machxo2Spec.ConfigFilterResetReceives | machxo2_driver.c:220-222 | a successful send of register 0x30's address is always followed by the one-byte receive that reads it into `tmp` |
| Machxo2Spec.WalkReceives | machxo2_driver.c:219-231 | the same for a walk over any table with an entry 10, because the ten entries before it are single sends |
| Machxo2Spec.ConfigRunSucceeds | machxo2_driver.c:219-233 | it returns 0 only after sending all 13 requests, every call having succeeded, and its calls are then exactly ConfigCalls |
| Machxo2Spec.ConfigRunFails | machxo2_driver.c:229-230 | a failing configuration returns the code of the first failing transfer, and that transfer is its last call |
| Machxo2Spec.ConfigNeverWritesFilterReset | machxo2_driver.c:214-221 | the pair `[0x30, 0x7F]` is never sent |
| Machxo2Spec.StatusReadyMask | machxo2_driver.c:367 | the loop's exit test is exactly `status & 0x48 != 0` |
| Machxo2.Driver.Poll | machxo2_driver.c:352-367 | the do-while loop, with its counter, makes the calls of PollFrom and ends with its outcome |
| Machxo2Spec.PollReads | machxo2_driver.c:352-367 | the poll sends only the address 0x48, at least once and at most 30001 times, and every read but the last showed the status not ready |
| Machxo2Spec.PollReadyResult | machxo2_driver.c:359-367 | ending ready, the poll used fewer than 30001 reads, all calls succeeded, and the last read showed bit 0x08 or 0x40 |
| Machxo2Spec.PollTimeoutShape | machxo2_driver.c:57-58 | timing out, the poll made exactly 30001 complete, successful reads |
| Machxo2Spec.PollErrorShape | machxo2_driver.c:354-358 | erring, the poll returns the code of its first failing transfer, which is its last call |
| Machxo2Spec.NeverReadyTimesOut | machxo2_driver.c:359-365 | on a bus that never fails and a status that is never ready, the poll times out after 30001 reads instead of hanging |
| Machxo2.Driver.Burst | machxo2_driver.c:369-376 | the for loop fills `val[0..5]` in place and makes the calls of BurstFrom |
| Machxo2.Driver.ReadInto | machxo2_driver.c:371-375 | one pass reads register 0x48 + i and, on success, stores the byte at `val[i]` and keeps the earlier ones |
| Machxo2Spec.BurstShape | machxo2_driver.c:369-376 | the burst reads 0x48..0x4D in increasing order; completing, it holds the six bytes received, in order; failing, it returns the first failing transfer's code and reads nothing more |
| Machxo2Spec.BurstDoneVals | machxo2_driver.c:369-376 | `val[0]`, `val[1]` and `val[5]` are the bytes of 0x48, 0x49 and 0x4D |
| Machxo2Spec.ModeCodeBits | machxo2_driver.c:380-382 | the mode code is 0, 1 or 2 from bits 3 and 4 of the status; bit 4 alone makes it 2 |
| Machxo2Spec.ToS16Wraps | machxo2_driver.c:384 | the `(s16)` cast is the two's-complement value congruent modulo 2^16 and is negative exactly from 0x8000 on |
| Machxo2Spec.SampleValue | machxo2_driver.c:384 | the sample is a multiple of 61 within the scaled 16-bit range; divided by 61 it gives back, modulo 2^16, `val[1]` as the high byte and `val[0]` as the low; it is negative exactly when `val[1] >= 0x80` |
| Machxo2Spec.DecodeStageMode | machxo2_driver.c:379-384 | the mode comes from the re-read status when that succeeds, and from the sixth burst byte still in `tmp` when it fails |
| Machxo2Spec.DecodeStageResult | machxo2_driver.c:379-389 | the final re-read of 0x48 returns 0 exactly when both its calls succeed, and otherwise the code of the first call that failed, which is its last |
| Machxo2.Driver.Decode | machxo2_driver.c:379-384 | the method makes the re-read and computes the decoding of DecodeStage |
| Machxo2.Driver.BurstThenDecode | machxo2_driver.c:369-384 | burst, re-read and decoding: the calls and result of BurstStage |
| Machxo2.Driver.LockedBody | machxo2_driver.c:352-386 | poll, then the burst stage once ready: the calls and result of CycleBody |
| Machxo2.Driver.ReadValues | machxo2_driver.c:339-390 | the method makes the calls of ReadValuesRun, the semaphore's down and up included, and returns its result |
| Machxo2Spec.BurstStageDecoded | machxo2_driver.c:369-384 | reaching the decoding, the burst stage sent 0x48..0x4D and then 0x48, and the sample comes from the first two bytes received |
| Machxo2Spec.CycleBodyErrors | machxo2_driver.c:352-389 | the body returns 0, -ETIMEDOUT, or the code of its last, failing transfer |
| Machxo2Spec.BurstStageResult | machxo2_driver.c:369-379 | the burst and the re-read return 0 exactly when they reach the decoding with every call successful; otherwise the code of their first failing call, which is their last |
| Machxo2Spec.CycleBodyResult | machxo2_driver.c:352-389 | the body returns 0 exactly when it reaches the decoding with every call successful; otherwise the code of its first failing call, or -ETIMEDOUT with nothing decoded after 30001 successful status reads |
| Machxo2Spec.ReadValuesResult | machxo2_driver.c:349-389 | a result of 0 means the semaphore was taken and the decoding reached with every transfer successful; a decoded cycle returns 0 exactly when every transfer succeeded; any other failure under the semaphore is the first failing transfer's code, that transfer being the last before the release, or -ETIMEDOUT after 30001 successful status reads |
| Machxo2Spec.ReadValuesErrors | machxo2_driver.c:349-389 | the result is 0 or negative; an interrupted down returns -ERESTARTSYS with no other call; any other error is -ETIMEDOUT or the code of the transfer just before the release |
| Machxo2Spec.ReadValuesDecoded | machxo2_driver.c:352-384 | reaching the decoding, the function sent 0x48 n times (1 <= n < 30001), then 0x48..0x4D, then 0x48, and the sample is made of the first two burst bytes |
| Machxo2Spec.ReadValuesMode | machxo2_driver.c:379-384 | a decoded mode is at most 2 and comes from the re-read, or from the byte of 0x4D when the re-read fails |
| Machxo2Spec.ReadValuesLockDiscipline | machxo2_driver.c:349-389 | every transfer happens with the semaphore held; it is released exactly once on every exit (success, transfer error, timeout); an interrupted down touches nothing and releases nothing |
| Machxo2.Driver.Read | machxo2_driver.c:399-414 | the ten-pass loop makes the calls of ReadRun and returns its value |
| Machxo2Spec.CyclesFromLast | machxo2_driver.c:406-409 | one more pass is one more cycle where the others stopped, and its result replaces the earlier ones |
| Machxo2Spec.ReadRunResult | machxo2_driver.c:406-412 | machxo2_read returns 0 or a negative code |
| Machxo2Spec.ReadRunLockDiscipline | machxo2_driver.c:399-414 | over all ten cycles the semaphore discipline holds and only transfers and semaphore calls are made: nothing is copied to the user |
| Machxo2Spec.StoredText | machxo2_driver.c:431-435 | the buffer after an accepted write holds the copied bytes and zero everywhere else |
| Machxo2Spec.WriteRejected | machxo2_driver.c:429-443 | a NULL buffer, a count of 0 or a count of 100 or more makes no call, changes nothing and returns 1, and only those are rejected |
| Machxo2Spec.WriteStores | machxo2_driver.c:429-440 | an accepted write whose copy succeeds stores exactly the user's count bytes, zeroes the rest (the last byte stays NUL), sets the position to count and returns count |
| Machxo2Spec.WriteFault | machxo2_driver.c:432-436 | a short copy returns -EINVAL and keeps the position; the buffer is cleared except for the bytes copied before the fault |
| Machxo2Spec.WriteShortBufferFaults | machxo2_driver.c:435-436 | a user buffer shorter than count always faults |
| Machxo2.Driver.Write | machxo2_driver.c:423-444 | the method clears and fills `machxo2_str` in place to exactly the text of WriteRun, with its result and position |
| Machxo2.Driver.constructor | machxo2_driver.c:80 | the global text buffer starts zeroed |
| Machxo2I2c.RegToMcMillidegrees | machxo2_i2c_driver.c:95-98 | the two shifts give the register value, truncated to the resolution, times 1000 / 256, rounded toward minus infinity |
| Machxo2I2c.RegToMcMonotone | machxo2_i2c_driver.c:95-98 | for a fixed resolution the conversion never decreases |
| Machxo2I2c.RegToMcRange | machxo2_i2c_driver.c:95-98 | the conversion stays within [-128000, 128000) millidegrees |
| Machxo2I2c.TruncatedRange | machxo2_i2c_driver.c:97 | the first shift rounds down and stays within the 16-bit range |
| Machxo2I2c.ReadValueTxn | machxo2_i2c_driver.c:115-121 | register 0x48 is read as a byte and every other register as a byte-swapped word |
| Machxo2I2c.ReadValueShape | machxo2_i2c_driver.c:115-121 | one transfer; a failure passes on unchanged; a success is the byte for 0x48 and the word, first byte high, for other registers |
| Machxo2I2c.WriteValueTxn | machxo2_i2c_driver.c:123-129 | register 0x48 is written as a byte (the u16 narrowed to its low byte) and every other register as a byte-swapped word |
| Machxo2I2c.WriteValueByte | machxo2_i2c_driver.c:125-126 | a byte value written to 0x48 arrives unchanged |
| Machxo2I2c.Client.ReadValue | machxo2_i2c_driver.c:115-121 | the method makes the call of ReadValueRun and returns its value |
| Machxo2I2c.Client.WriteValue | machxo2_i2c_driver.c:123-129 | the method makes the call of WriteValueRun and returns its value |
| Machxo2I2c.KindClearsShutdown | machxo2_i2c_driver.c:161-222 | every kind's clear mask holds 0x01 and no set mask does, so the new configuration byte always has bit 0 clear |
| Machxo2I2c.KindResolution | machxo2_i2c_driver.c:165-222 | the resolution is 9, 11 or 12; resolution_limits is 9 for max6626 and mcp980x and 0, as allocated, for every other kind |
| Machxo2I2c.KindModeBits | machxo2_i2c_driver.c:171-221 | ds1775, ds75 and stds75 force bits 5-6 to 0b10; the 12-bit kinds that set the mode force them to 0b11 |
| Machxo2I2c.Mcp980xFallsThrough | machxo2_i2c_driver.c:203-212 | mcp980x gets the tmp100 settings plus resolution_limits = 9 |
| Machxo2I2c.NewConfBits | machxo2_i2c_driver.c:230-231 | `(status & ~clr) \| set` keeps every bit outside clr and set, sets every bit of set, and clears every bit of clr outside set |
| Machxo2I2c.NewConfIdempotent | machxo2_i2c_driver.c:230-231 | applying the masks twice is the same as applying them once |
| Machxo2I2c.ConfByteBits | machxo2_i2c_driver.c:230-231 | the integer `new` has exactly the bits of the mask formula |
| Machxo2I2c.ClientData.Switch | machxo2_i2c_driver.c:161-222 | the fall-through switch builds exactly the masks, resolution, limits and sample time of KindSettings for the kind |
| Machxo2I2c.ClientData.constructor | machxo2_i2c_driver.c:150 | devm_kzalloc gives a record with every field zero |
| Machxo2I2c.ProbeEarlyExits | machxo2_i2c_driver.c:145-152 | probe returns -EIO without byte and word SMBus support before any other call, and -ENOMEM on a failed allocation before any register access |
| Machxo2I2c.ProbeReadFails | machxo2_i2c_driver.c:224-228 | a failed read of the configuration register is returned, with no write |
| Machxo2I2c.ProbeConfigures | machxo2_i2c_driver.c:224-242 | after a successful read, orig_conf holds the byte read; the masked byte is written back exactly when it differs, with bit 0 clear; probe returns 0 whatever the write returns |
| Machxo2I2c.Client.Probe | machxo2_i2c_driver.c:136-243 | the method makes the calls of ProbeRun, returns its result, and leaves the client data as ProbeRun's record (none before allocation) |
| Machxo2I2c.Client.Configure | machxo2_i2c_driver.c:224-233 | the read, the update of orig_conf and the conditional write, as in ConfigureRun |
| Lm75Ids.KindValue | machxo2_i2c_driver.h:7-26 | each of the 18 enumerators has its declaration position as its value |
| Lm75Ids.NextSorted | machxo2_i2c_driver.h:7-26 | each enumerator's identifier comes alphabetically before the next one's |
| Lm75Ids.IdTableShape | machxo2_i2c_driver.h:29-49 | the table has one named entry per kind, then the empty end entry |
| Lm75Ids.IdTableMatchesEnum | machxo2_i2c_driver.h:30-47 | entry i is the kind with value i, under that kind's identifier |
| Lm75Ids.IdTableSorted | machxo2_i2c_driver.h:30-47 | the names are in strict alphabetical order, hence pairwise distinct |
| Lm75Ids.LookupFindsKind | machxo2_i2c_driver.h:29-49 | binding a device by a kind's name yields that kind's value as driver_data |
| Machox2Draft.DraftReadGuard | machox2_driver.c:75-84 | the draft read serves exactly the requests with 0 < count < 100; the others make no call and change nothing |
| Machox2Draft.DraftReadDelivers | machox2_driver.c:78-82 | a served read whose copy succeeds delivers the first count bytes of machxo2_str, sets the position to count and returns count |
| Machox2Draft.DraftReadFault | machox2_driver.c:79-80 | a served read whose copy comes up short returns -EINVAL and keeps the position |
| Machox2Draft.DraftWriteStoresNothing | machox2_driver.c:86-95 | the guard `machxo2_str == NULL` never holds, so the draft write never stores anything and returns nothing |
| Machox2Draft.DraftWriteIfServed | machox2_driver.c:89-93 | were the guard to pass, a copy would put the user's bytes first and keep the rest, with -EINVAL on a short copy |
| Machox2Draft.DraftReadsZeros | machox2_driver.c:14 | the zeroed `char *` array stays zeroed, so every byte a read delivers is zero |
| Machox2Draft.Device.Read | machox2_driver.c:75-84 | the method makes the call of DraftReadRun and returns its outcome |
| Machox2Draft.Device.Write | machox2_driver.c:86-95 | the method changes machxo2_str in place exactly as DraftWriteRun says |
| Machox2Draft.Device.constructor | machox2_driver.c:14 | machxo2_str, a global array of 100 `char *`, starts zeroed |

## Left out

- Module lifecycle and registration are not modelled: `machxo2_init`/`machxo2_exit` in all three .c files, `cdev_*`, `register_chrdev_region`, `i2c_add_driver`, `i2c_new_device` and the `module_*` macros. They are plumbing around the core.
- `machxo2_open`, `machxo2_release` and the character driver's `machxo2_i2c_remove` are not modelled. Each only logs and returns 0.
- The I2C client's `machxo2_i2c_remove` (machxo2_i2c_driver.c:247-252) is not modelled. It unregisters the whole I2C driver with `i2c_del_driver`, logs, and returns 0, and driver registration is part of the lifecycle left out above.
- The character driver's `MACHXO2_I2C_ID`, `MACHXO2_REG_CTRL_REG1`, `MACHXO2_SHUTDOWN`, `MACHXO2_REG_CONF` and `MACHXO2_REG_STATUS_REG` have no counterpart. `machxo2_driver.c` uses the first only in `machxo2_init`, and the others not at all: its poll reads the literal 0x48 instead of `MACHXO2_REG_STATUS_REG`. The I2C client's own `MACHXO2_SHUTDOWN` and `MACHXO2_REG_CONF` are modelled as `Machxo2I2c.Shutdown` and `Machxo2I2c.RegConf`.
- Debug output is left out: `MDEBUG`, `printk` and `dev_dbg` have no effect on results.
- The bus, `copy_from_user`/`copy_to_user`, the semaphore, `i2c_check_functionality` and `devm_kzalloc` are oracle answers, not implementations.
- `udelay` is left out, as is real time. Only the microsecond counter of the poll is modelled.
- HZ is a parameter `hz` of the probe.
- Concurrency is left out. The semaphore is modelled by the order of its down and up calls in one thread's trace, and contention is not modelled.
- `Machxo2I2c.Asr`: `>>` on a negative `s16` in `machxo2_reg_to_mc` is implementation-defined in C. The model takes it as an arithmetic shift, rounding toward minus infinity, as GCC compiles it, and does not model other compilers' choices.
- The signedness of plain `char` is fixed: bytes are taken as unsigned 0..255, so the sign extension that a signed `char` would give `val[i] = tmp` is not modelled.
- `machxo2_read_values` writes `mach_data` into a by-value parameter. The model keeps the decoded mode and sample in the cycle's result, and `machxo2_read` drops them, as the C code does.
- The commented-out `machxo2_update_device`, `machxo2_read_temp` and hwmon registration are not compiled, and so are not modelled. Neither is the unused `MACHXO2_REG_TEMP` table nor the `normal_i2c` address list.
- The I2C client's `data->client`, `i2c_set_clientdata` and `mutex_init` are not modelled, beyond the client data being recorded on the client.
- The draft's falling off the end of its non-void functions is modelled as no return value (`None`), since C leaves it unspecified.
- `Machox2Draft.CharPtrSize`, the width of a `char *`, is an assumption of the model, not something the source fixes. It is 8, as on a 64-bit build, and it sets only the length of the draft's `machxo2_str` (`TextLength * CharPtrSize` bytes). No draft proof depends on its value, since the draft copies fewer than 100 bytes.
- `userapp.c` is not part of this model. It is an interactive test program around `open`/`read`/`write`.
