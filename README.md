# Wii SD slot driver, modelled in Dafny

`libios/source/wiisd.c` drives the Wii's internal SD slot through the IOS
service `/dev/sdio/slot0`. It keeps five module-level variables: the service
handle `__sd0_fd`, the card's relative address `__sd0_rca`, and the flags
`__sd0_initialized`, `__sd0_sdhc` and `__sdio_initialized`. Every routine is a
short, sequential series of IPC calls (`IOS_Open`, `IOS_Close`, `os_ioctl`,
`os_ioctlv`) with cache maintenance around them. Each branch depends only on
the calls' return codes and on status words.

The model has five modules:

- `Ipc` (`ipc.dfy`) is the service as the driver sees it.
  - Every IPC call, cache flush or invalidate, GPIO switch and delay is an
    `Event` appended to a trace.
  - Calls are answered by an oracle that may depend on the call and on the
    whole trace before it.
  - `Calls` and `Commands` extract the IPC calls of a trace and the card
    commands those calls carry.
- `SdioBits` (`bits.dfy`) holds the driver's constants and its word
  arithmetic:
  - the `s32`/`u32` reinterpretation;
  - the card address and reset status halves of the reset word;
  - the Host Control byte, the ACMD6 argument and the sector argument;
  - the alignment test and the polling condition.
- `Sdio` (`sdio.dfy`) holds one function per routine. It maps the variables,
  the trace and the oracle to the new variables, the new trace and the
  return value.
- `WiiSd.Driver` (`driver.dfy`) is a class whose fields are the five
  variables. It calls the service object routine by routine, step by step,
  with the polling loop of `__sdio_waithcr` as a `while` loop. Each method
  is proved to leave exactly the state, and to return exactly the value,
  that the matching `Sdio` function gives for the state before the call.
- `SdioLemmas` (`lemmas.dfy`) states what each routine does in terms of the
  calls and commands it emits, its result and the variables it changes.

Bit tests and masks are written as integer arithmetic on values in the
`u32` range. For example, `(w / mask) % 2 == 1` tests a single bit, and
`4 * (low / 4) + width + low % 2` rebuilds the Host Control byte.

Command lists name each command by its place in the sequence. When the
ignored card reset has failed, `__sd0_rca` is 0, and then the "select" is CMD7
with argument 0, the same command as the "deselect"
(`SdioLemmas.FailedResetSelectIsDeselect`).

## Model

| member | source | states |
|---|---|---|
| Sdio.CommandCall | libios/source/wiisd.c:174-177 | the call carries exactly the one request; it is `os_ioctlv` exactly when the request is a DMA transfer or the card is SDHC, `os_ioctl` otherwise |
| Sdio.FlushesBefore | libios/source/wiisd.c:170-172 | the request is always flushed first; the data buffer is flushed exactly when there is one and the command is not READMULTIBLOCK; nothing but flushes |
| Sdio.InvalidatesAfter | libios/source/wiisd.c:179-189 | nothing after a failed call; after a success the buffer is invalidated exactly when there is one and the command is not WRITEMULTIBLOCK, and the response exactly when a reply of at most 16 bytes is wanted |
| SdioLemmas.SendCommandTrace | libios/source/wiisd.c:146-192 | the whole trace of `__sdio_sendcommand` is flushes, one call, then invalidations; it returns the call's status unchanged; a reply is copied exactly when the call succeeded, `reply` is set and `rlen <= 16`, and the reply is then the first `rlen` response bytes |
| SdioLemmas.SendCommandCalls | libios/source/wiisd.c:153-177 | exactly one IPC call and one command, the request built from the arguments; `isdma` is set exactly when the buffer is non-null; `os_ioctlv` is used exactly when the buffer is non-null or `__sd0_sdhc == 1` |
| WiiSd.Driver.SendCommand | libios/source/wiisd.c:146-192 | the routine run step by step leaves the state and returns the result of `Sdio.SendCommand` |
| SdioLemmas.SetClockCall | libios/source/wiisd.c:194-204 | one call, the clock word (no command), and its status is returned |
| WiiSd.Driver.SetClock | libios/source/wiisd.c:194-204 | agrees with `Sdio.SetClock` |
| SdioBits.ToU32 | libios/source/wiisd.c:376 | an `s32` stored into a `u32` is the number modulo 2^32 (its two's complement bits); the top bit is set exactly when it was negative |
| SdioBits.ToS32 | libios/source/wiisd.c:216 | a `u32` returned as `s32` is the number congruent to it modulo 2^32 in the `s32` range; it is negative exactly when the top bit is set |
| SdioBits.SignedRoundTrip | libios/source/wiisd.c:376 | storing an `s32` result into a `u32` loses nothing: read back as `s32` it is the same number |
| SdioBits.UnsignedRoundTrip | libios/source/wiisd.c:216 | a status word returned as `s32` and stored back into a `u32` is the same word |
| SdioLemmas.GetStatusCall | libios/source/wiisd.c:205-217 | one call, no command; as a `u32` the result is the status word after a success and the error code's bits after a failure; the result is negative exactly for a failure or a word with the top bit set |
| WiiSd.Driver.GetStatus | libios/source/wiisd.c:205-217 | agrees with `Sdio.GetStatus` |
| SdioBits.ResetWordSplit | libios/source/wiisd.c:230-231 | the card address and the reported status are the upper and lower halves of the reset word |
| SdioLemmas.ResetCardCall | libios/source/wiisd.c:219-232 | one call, no command; after a failure the status is returned and the card address is 0; after a success the card address and the result are the two halves of the word the call left |
| WiiSd.Driver.ResetCard | libios/source/wiisd.c:219-232 | agrees with `Sdio.ResetCard` |
| SdioLemmas.FailedResetSelectIsDeselect | libios/source/wiisd.c:226-228 | when the card reset fails (its result is ignored at line 375), `__sd0_rca` is 0 and the bring-up's select is the same command, CMD7 with argument 0, as the deselect |
| SdioLemmas.GetHcrCall | libios/source/wiisd.c:234-256 | the trace grows by the query flush, the one read call and the value invalidation (no command); it gives back the status and the word the call left, even when the call failed |
| WiiSd.Driver.GetHcr | libios/source/wiisd.c:234-256 | agrees with `Sdio.GetHcr` |
| SdioLemmas.SetHcrCall | libios/source/wiisd.c:258-275 | one call, the register write with the given data (no command), and its status is returned |
| WiiSd.Driver.SetHcr | libios/source/wiisd.c:258-275 | agrees with `Sdio.SetHcr` |
| Sdio.WaitLoop | libios/source/wiisd.c:299-309 | the polling loop changes no variable and never returns a positive value |
| SdioLemmas.PollOnce | libios/source/wiisd.c:301-307 | one round reads the register once (flush, call, invalidate); it stops exactly when the read failed or showed the condition; otherwise the round ends with a 10 ms delay and the loop goes on from there with one try fewer |
| SdioLemmas.WaitLoopReads | libios/source/wiisd.c:295-310 | the loop reads the register `k` times, with `1 <= k <= tries`, and makes no other call |
| SdioLemmas.WaitLoopSendsNoCommand | libios/source/wiisd.c:295-310 | the loop sends no command to the card |
| SdioLemmas.WaitLoopTimesOut | libios/source/wiisd.c:299-309 | when none of the reads the loop makes succeeds with the condition shown, the trace grows by exactly `tries` rounds of flush, read, invalidate and 10 ms delay, the calls are `tries` reads, and the result is -1 |
| SdioLemmas.WaitLoopFirstRead | libios/source/wiisd.c:303-305 | a failed read returns its status at once; a read showing the condition returns 0 at once; in both cases there is one call |
| WiiSd.Driver.WaitHcr | libios/source/wiisd.c:295-310 | the `while` loop over `tries = 10` agrees with `Sdio.WaitHcr` |
| SdioBits.HostControl | libios/source/wiisd.c:320-322 | the value written is one byte; bit 0 and bits 2-7 of the low byte are kept; bit 1 is set exactly for a 4-bit bus |
| SdioLemmas.SetHostBusWidthCalls | libios/source/wiisd.c:312-325 | a failed read of register 0x28 is returned and nothing is written; otherwise the byte from `HostControl` is written with size 1 and the write's status is the result; no command reaches the card |
| WiiSd.Driver.SetHostBusWidth | libios/source/wiisd.c:312-325 | agrees with `Sdio.SetHostBusWidth` |
| SdioBits.AddressArgument | libios/source/wiisd.c:331 | `rca << 16` carries the card address in the upper half and zeros in the lower half |
| SdioLemmas.SelectSends | libios/source/wiisd.c:327-334 | exactly one command, CMD7 addressed to `__sd0_rca`, and its status is returned |
| WiiSd.Driver.Select | libios/source/wiisd.c:327-334 | agrees with `Sdio.Select` |
| SdioLemmas.DeselectSends | libios/source/wiisd.c:336-343 | exactly one command, CMD7 with argument 0, and its status is returned |
| WiiSd.Driver.Deselect | libios/source/wiisd.c:336-343 | agrees with `Sdio.Deselect` |
| SdioLemmas.SetBlockLengthSends | libios/source/wiisd.c:345-352 | exactly one command, CMD16 with the length, and its status is returned |
| WiiSd.Driver.SetBlockLength | libios/source/wiisd.c:345-352 | agrees with `Sdio.SetBlockLength` |
| SdioBits.BusWidthCode | libios/source/wiisd.c:359-360 | the ACMD6 argument is 2 exactly for a 4-bit bus, and 0 otherwise |
| SdioLemmas.SetCardBusWidthSends | libios/source/wiisd.c:354-368 | CMD55 for the card's address, and ACMD6 only if CMD55 succeeded; the ACMD6 argument is 2 exactly for a 4-bit bus |
| SdioLemmas.SetCardBusWidthCalls | libios/source/wiisd.c:362-367 | a failed CMD55 is the only call and its status is the result; otherwise the calls are CMD55 then ACMD6 and ACMD6's status is the result |
| SdioLemmas.AfterAppCmd | libios/source/wiisd.c:364-367 | once CMD55 has succeeded, ACMD6 is the next call and its status is the result |
| WiiSd.Driver.SetCardBusWidth | libios/source/wiisd.c:354-368 | agrees with `Sdio.SetCardBusWidth` |
| SdioLemmas.ResetAndStatusCalls | libios/source/wiisd.c:375-376 | the reset call and then the status call (no command); the card address comes from the reset; the status word is the query's word or its error code's bits |
| SdioLemmas.StatusFailureLooksReady | libios/source/wiisd.c:376-384 | a status query failing with -1 yields a word with every bit set, so `__sd0_initio` goes on to bring the card up as an SDHC card |
| SdioLemmas.SelectedSteps | libios/source/wiisd.c:395-406 | after a successful select: select, CMD16 and the deselect exactly when CMD16 fails; select, CMD16, CMD55 and the deselect exactly when CMD16 succeeds and CMD55 fails; all five commands exactly when both succeed; the deselect is the last command in every case; success, which sets `__sd0_initialized`, exactly when CMD16 and the card bus width both return a non-negative status |
| SdioLemmas.ConfigureCardSends | libios/source/wiisd.c:392-406 | the card part of the bring-up sends the select alone exactly when the select fails; after a successful select, each shorter sequence matches the first of CMD16 or CMD55 that failed, as for `SelectedSteps`; otherwise a sequence ending in the deselect; success means all five commands were sent and sets `__sd0_initialized`; no other variable changes |
| SdioLemmas.BringUpSends | libios/source/wiisd.c:381-407 | nothing is sent exactly when the host bus width or clock step fails; the select alone exactly when the select fails; select, CMD16, deselect exactly when CMD16 fails; select, CMD16, CMD55, deselect exactly when CMD55 fails; all five exactly when both succeed; any sequence longer than one command ends with the deselect; success means the whole sequence was sent and `__sd0_initialized` is 1; no other variable changes |
| SdioLemmas.BringUpSucceeds | libios/source/wiisd.c:386-406 | the bring-up succeeds exactly when host bus width, clock, select, block length and card bus width all return a non-negative status; a failed host-side step ends it at once |
| SdioLemmas.BringUpCalls | libios/source/wiisd.c:386-406 | the calls of a successful bring-up are exactly: read 0x28, write back `HostControl(word, 4)`, clock on, select, block length 512, CMD55, ACMD6 with 2, deselect |
| SdioLemmas.HostSteps | libios/source/wiisd.c:386-390 | on a successful bring-up the host-side calls are the read and write of register 0x28 and the clock call; no variable changes |
| SdioLemmas.CardSteps | libios/source/wiisd.c:392-402 | when select, block length and card bus width all succeed, the calls are the five card commands, ending with the deselect |
| WiiSd.Driver.BringUp | libios/source/wiisd.c:381-407 | agrees with `Sdio.BringUp` |
| SdioLemmas.ResetControllerCalls | libios/source/wiisd.c:409-413 | the calls are: write 7 to register 0x2f, read it 1 to 10 times, close the handle, reopen the device in mode 1; the new handle is what the open returned; no command is sent; failure is returned; the flags and address are kept |
| WiiSd.Driver.ResetController | libios/source/wiisd.c:409-413 | agrees with `Sdio.ResetController` |
| SdioLemmas.InitIoOutcome | libios/source/wiisd.c:370-414 | on success the status word showed the card inserted and initialized, the whole bring-up was sent for the reset's card address, `__sd0_initialized` is 1 and the handle is kept; `__sd0_sdhc` is set from bit 0x100000 exactly when the card is inserted and initialized, and kept otherwise; that case is the bring-up, an inserted uninitialized card the controller reset; on failure `__sd0_initialized` is unchanged; without a card nothing follows the status query; `__sdio_initialized` is never changed; the flags stay 0 or 1 |
| WiiSd.Driver.InitIo | libios/source/wiisd.c:370-414 | agrees with `Sdio.InitIo` |
| SdioLemmas.DeinitializeCalls | libios/source/wiisd.c:416-423 | closes the handle exactly when it is non-negative; clears `__sdio_initialized`; returns true; `__sd0_fd` keeps the closed handle |
| WiiSd.Driver.Deinitialize | libios/source/wiisd.c:416-423 | agrees with `Sdio.Deinitialize`; keeps the flags at 0 or 1 |
| SdioLemmas.StartupOutcome | libios/source/wiisd.c:425-442 | when already initialized, it returns true and changes nothing; otherwise it succeeds exactly when the open (mode 0) returned a handle >= 0 and `__sd0_initio` succeeded on it, and then only sets `__sdio_initialized`; on either failure the state is that of `sdio_Deinitialize` from there; success implies `__sd0_initialized == 1` and an open handle; the flags stay 0 or 1 |
| SdioLemmas.StartupIdempotent | libios/source/wiisd.c:427 | a second start after a successful one returns true and changes nothing |
| WiiSd.Driver.Startup | libios/source/wiisd.c:425-442 | agrees with `Sdio.Startup`; keeps the flags at 0 or 1 |
| SdioLemmas.ShutdownOutcome | libios/source/wiisd.c:446-455 | gated on `__sd0_initialized`: when it is 0, nothing happens and false is returned; otherwise the handle is closed (if non-negative), both flags are cleared, the handle, card address and `__sd0_sdhc` are kept, no command is sent, and true is returned |
| WiiSd.Driver.Shutdown | libios/source/wiisd.c:446-455 | agrees with `Sdio.Shutdown`; keeps the flags at 0 or 1 |
| SdioLemmas.PublicKeepsValid | libios/source/wiisd.c:137-142 | Startup, Shutdown, Deinitialize, Transfer and the status queries keep each of the three flags at 0 or 1 |
| SdioBits.SectorArgument | libios/source/wiisd.c:471-472 | for a standard-capacity card the argument is `sector << 9` in 32 bits, that is `(sector mod 2^23) * 512` (exactly `sector * 512` below 2^23 sectors); for SDHC it is the sector itself |
| SdioLemmas.TransferRejects | libios/source/wiisd.c:462-469 | a misaligned buffer switches the slot LED on and fails; a null buffer fails; neither makes a call or changes a variable |
| SdioLemmas.TransferSelectFails | libios/source/wiisd.c:468-469 | when the select fails, it is the only call and the transfer fails without a deselect |
| SdioLemmas.TransferSends | libios/source/wiisd.c:468-487 | after a successful select, exactly select, data command, deselect: the data command has type AC, R1, `numSectors` blocks of 512 bytes and the sector argument; it is a DMA `os_ioctlv`; the deselect follows whatever the data command returned; no variable changes |
| SdioLemmas.TransferResult | libios/source/wiisd.c:478-486 | after a successful select, the transfer succeeds exactly when the data command's call returned a non-negative status |
| WiiSd.Driver.Transfer | libios/source/wiisd.c:457-487 | agrees with `Sdio.Transfer`; keeps the flags at 0 or 1 |
| WiiSd.Driver.ReadSectors | libios/source/wiisd.c:489-492 | agrees with `Sdio.ReadSectors`, a transfer with CMD18; keeps the flags at 0 or 1 |
| WiiSd.Driver.WriteSectors | libios/source/wiisd.c:494-497 | agrees with `Sdio.WriteSectors`, a transfer with CMD25; keeps the flags at 0 or 1 |
| WiiSd.Driver.ClearStatus | libios/source/wiisd.c:499-502 | always returns true and changes nothing |
| SdioLemmas.StatusQueries | libios/source/wiisd.c:504-514 | each makes one status call, sends no command and changes no variable; they test bit 0x1 or bit 0x10000 of the status word, or of the error code's bits; a query failing with -1 reports a card inserted and initialized |
| WiiSd.Driver.IsInserted | libios/source/wiisd.c:504-508 | agrees with `Sdio.IsInserted`; keeps the flags at 0 or 1 |
| WiiSd.Driver.IsInitialized | libios/source/wiisd.c:510-514 | agrees with `Sdio.IsInitialized`; keeps the flags at 0 or 1 |

## Left out

- `udelay` and `msleep` (busy-waits on the hardware timer at 0x0D800010) are not modelled. A delay is recorded as a `Delay` event.
- `os_open`, `os_close`, `os_ioctl`, `os_ioctlv` and the cache operations are not modelled. They are recorded as events, and an oracle supplies the replies.
- `gpio_set_off` and the `VISUALIZE` blocks are not modelled. Only the misalignment indicator (`gpio_set_on`) is recorded.
- The byte layout of the request and response structures, `STACK_ALIGN`, and pointer casts are not modelled. Requests are field records, addresses are 32-bit numbers, and the reply `memcpy` is the first `rlen` bytes of the 16-byte response.
- The `DISC_INTERFACE` table is left out: it is static function-pointer wiring.
- `READ_BL_LEN` and `WRITE_BL_LEN` are left out: they are unused and refer to an undefined variable.
- `Sdio.GetHcr` does not model the `val == NULL` guard that returns `IPC_EINVAL`. Every caller passes a variable.
- `Sdio.SendCommand` models a non-null reply pointer as a boolean.
- The `u8` parameters `reg`, `size` and `unset` are widened to `u32` values. All callers pass small constants.
- `SdioBits.AddressArgument` models `rca << 16` as the 32-bit product. For an address of 0x8000 or more, C's signed shift overflows; the model takes the bits the compiler produces.
- `SdioLemmas.WaitLoopReads` does not distinguish the two ways `__sdio_waithcr` returns -1: a read that failed with -1, and a timeout. The source does not distinguish them either.
- The `sec_t` sector type is modelled as 32 bits.
- Concurrency is not modelled: the driver has none.
