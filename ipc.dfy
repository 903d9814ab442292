/** The privileged I/O service behind `/dev/sdio/slot0`, as the driver sees it.
    Every call the driver makes (open, close, ioctl, ioctlv) and every cache
    maintenance step, GPIO switch or delay is recorded, in order, as an Event.
    The service and the hardware behind it are an oracle: the reply to a call is
    any function of the call and of everything recorded before it. */
module Ipc {

  /** A C `s32`. */
  type Int32 = x: int | -0x8000_0000 <= x < 0x8000_0000

  /** A C `u32`. */
  type U32 = x: int | 0 <= x < 0x1_0000_0000

  /** A C `u16`. */
  type U16 = x: int | 0 <= x < 0x1_0000

  /** A 32-bit address, the value `(u32)buffer`; 0 is the null pointer. */
  type Addr = U32

  // Opcodes of the SDIO service (IOCTL_SDIO_*)
  const IoctlWriteHcReg: U32 := 0x01
  const IoctlReadHcReg: U32 := 0x02
  const IoctlResetCard: U32 := 0x04
  const IoctlSetClk: U32 := 0x06
  const IoctlSendCmd: U32 := 0x07
  const IoctlGetStatus: U32 := 0x0B

  /** `struct _sdiorequest`, field by field (the padding word is always 0). */
  datatype Request = Request(cmd: U32, cmdType: U32, rspType: U32, arg: U32,
                             blkCnt: U32, blkSize: U32, dmaAddr: Addr, isDma: U32)

  /** What an `os_ioctl` passes in its input buffer. */
  datatype Payload =
    | NoInput
    | Command(req: Request)          // a command request (36 bytes)
    | Query(words: seq<U32>)        // a host-controller register query (6 words)
    | Word(w: U32)                  // a single word (the clock setting)

  /** The memory a cache operation acts on. */
  datatype Region =
    | RequestBlock                   // the command request
    | ResponseBlock                  // the 32-byte aligned response block
    | DataBuffer(addr: Addr, len: U32)
    | ClockWord
    | StatusWord
    | QueryBlock                     // the register query
    | RegisterValue                  // the word a register read lands in

  datatype Pin = Oslot

  datatype Event =
    | Open(path: string, mode: int)
    | Close(fd: Int32)
    | Ioctl(fd: Int32, op: U32, input: Payload, outLen: nat)
    | Ioctlv(fd: Int32, op: U32, numIn: nat, numOut: nat, req: Request, buffer: Addr, bufLen: U32)
    | SyncAfterWrite(region: Region) // flush: make the CPU's writes visible to the service
    | SyncBeforeRead(region: Region) // invalidate: make the service's writes visible to the CPU
    | GpioOn(pin: Pin)
    | Delay(usec: nat)

  /** The 16 bytes of `struct _sdioresponse` as the service left them. */
  type Response = s: seq<bv8> | |s| == 16 witness [0, 0, 0, 0, 0, 0, 0, 0, 0, 0, 0, 0, 0, 0, 0, 0]

  /** The answer to one IPC call: its return value, the word left in a 4-byte
      output buffer, and the response block. */
  datatype Reply = Reply(ret: Int32, word: U32, response: Response)

  /** How the service answers: the reply to a call, given everything recorded before it. */
  type Oracle = (seq<Event>, Event) -> Reply

  predicate IsIpc(e: Event) {
    e.Open? || e.Close? || e.Ioctl? || e.Ioctlv?
  }

  /** The IPC calls of a trace, in order, without cache, GPIO and delay events. */
  function Calls(t: seq<Event>): (r: seq<Event>)
    ensures |r| <= |t|
    ensures forall i :: 0 <= i < |r| ==> IsIpc(r[i])
  {
    if t == [] then [] else
      var last := t[|t| - 1];
      Calls(t[..|t| - 1]) + (if IsIpc(last) then [last] else [])
  }

  /** The request a call hands to the card, if it is a send-command call. */
  function CommandOf(e: Event): seq<Request> {
    if e.Ioctl? && e.op == IoctlSendCmd && e.input.Command? then [e.input.req]
    else if e.Ioctlv? && e.op == IoctlSendCmd then [e.req]
    else []
  }

  /** The commands a trace sends to the card, in order. */
  function Commands(t: seq<Event>): seq<Request> {
    if t == [] then [] else
      Commands(t[..|t| - 1]) + CommandOf(t[|t| - 1])
  }

  lemma CallsSnoc(t: seq<Event>, e: Event)
    ensures Calls(t + [e]) == Calls(t) + (if IsIpc(e) then [e] else [])
  {
    assert (t + [e])[..|t|] == t;
  }

  lemma CommandsSnoc(t: seq<Event>, e: Event)
    ensures Commands(t + [e]) == Commands(t) + CommandOf(e)
  {
    assert (t + [e])[..|t|] == t;
  }

  /** The calls of two stretches of trace are those of the first, then those of the second. */
  lemma {:induction false} CallsAppend(a: seq<Event>, b: seq<Event>)
    ensures Calls(a + b) == Calls(a) + Calls(b)
    decreases |b|
  {
    if b == [] {
      assert a + b == a;
    } else {
      var b', e := b[..|b| - 1], b[|b| - 1];
      assert b == b' + [e];
      assert a + b == (a + b') + [e];
      CallsAppend(a, b');
      CallsSnoc(a + b', e);
      CallsSnoc(b', e);
    }
  }

  /** The commands of two stretches of trace are those of the first, then those of the second. */
  lemma {:induction false} CommandsAppend(a: seq<Event>, b: seq<Event>)
    ensures Commands(a + b) == Commands(a) + Commands(b)
    decreases |b|
  {
    if b == [] {
      assert a + b == a;
    } else {
      var b', e := b[..|b| - 1], b[|b| - 1];
      calc {
        Commands(a + b);
        { assert a + b == (a + b') + [e]; }
        Commands((a + b') + [e]);
        { CommandsSnoc(a + b', e); }
        Commands(a + b') + CommandOf(e);
        { CommandsAppend(a, b'); }
        Commands(a) + Commands(b') + CommandOf(e);
        { CommandsSnoc(b', e); assert b == b' + [e]; }
        Commands(a) + Commands(b);
      }
    }
  }

  /** A stretch of trace without IPC calls sends nothing. */
  lemma {:induction false} NoCalls(t: seq<Event>)
    requires forall e :: e in t ==> !IsIpc(e)
    ensures Calls(t) == [] && Commands(t) == []
    decreases |t|
  {
    if t != [] {
      NoCalls(t[..|t| - 1]);
    }
  }

  /** The service. Its trace grows by one event per primitive the driver calls. */
  class Service {
    /** Every event the driver has produced, oldest first. */
    var trace: seq<Event>
    /** How the service answers a call, given what came before. */
    const oracle: Oracle

    constructor (oracle: Oracle)
      ensures this.oracle == oracle && trace == []
    {
      this.oracle := oracle;
      trace := [];
    }

    /** `os_open`, `os_close`, `os_ioctl` and `os_ioctlv`: a call the oracle answers. */
    method Call(e: Event) returns (r: Reply)
      requires IsIpc(e)
      modifies this
      ensures trace == old(trace) + [e]
      ensures r == oracle(old(trace), e)
    {
      r := oracle(trace, e);
      trace := trace + [e];
    }

    /** `os_sync_after_write`, `os_sync_before_read`, `gpio_set_on` and `udelay`:
        recorded, nothing comes back. */
    method Note(e: Event)
      requires !IsIpc(e)
      modifies this
      ensures trace == old(trace) + [e]
    {
      trace := trace + [e];
    }
  }
}
