/** What each routine of the Wii SD driver does, as a function of the driver's
    module-level variables, the service's trace and the oracle that answers the
    service's calls. Each function returns the new variables and trace together
    with the routine's return value. The Driver class in module WiiSd runs the
    same routines step by step and is proved to agree with these functions. */
module Sdio {
  import opened Ipc
  import opened SdioBits

  datatype Option<T> = None | Some(value: T)

  /** `__sd0_fd`, `__sd0_rca`, `__sd0_initialized`, `__sd0_sdhc`, `__sdio_initialized`,
      and the trace of everything the driver has asked of the service. */
  datatype St = St(fd: Int32, rca: U16, sd0Initialized: int, sdhc: int, sdioInitialized: int,
                   trace: seq<Event>)

  /** A routine's result: the new state and the value it returns. */
  datatype Out<T> = Out(st: St, val: T)

  /** What `__sdio_sendcommand` gives back: the call's status and the reply bytes
      it copied out, if it copied any. */
  datatype CmdResult = CmdResult(ret: Int32, reply: Option<seq<bv8>>)

  /** What `__sdio_gethcr` gives back: the call's status and the value it stored in `*val`. */
  datatype HcrRead = HcrRead(ret: Int32, val: U32)

  /** The variables as the program is loaded. */
  function Boot(trace: seq<Event>): St {
    St(-1, 0, 0, 0, 0, trace)
  }

  /** The three flags only ever hold 0 or 1. */
  predicate Valid(s: St) {
    s.sd0Initialized in {0, 1} && s.sdhc in {0, 1} && s.sdioInitialized in {0, 1}
  }

  /** The driver's variables are the same in both states (the traces may differ). */
  predicate SameVars(a: St, b: St) {
    a.fd == b.fd && a.rca == b.rca && a.sd0Initialized == b.sd0Initialized &&
    a.sdhc == b.sdhc && a.sdioInitialized == b.sdioInitialized
  }

  /** Record a cache, GPIO or delay step. */
  function Note(s: St, e: Event): (r: St)
    requires !IsIpc(e)
    ensures SameVars(s, r) && r.trace == s.trace + [e]
  {
    s.(trace := s.trace + [e])
  }

  /** Make an IPC call and take the oracle's reply. */
  function Ask(s: St, o: Oracle, e: Event): (r: Out<Reply>)
    requires IsIpc(e)
    ensures SameVars(s, r.st) && r.st.trace == s.trace + [e] && r.val == o(s.trace, e)
  {
    Out(s.(trace := s.trace + [e]), o(s.trace, e))
  }

  // ---------------------------------------------------------------------------
  // Command codec

  /** The request `__sdio_sendcommand` fills in; it is a DMA transfer exactly when
      there is a buffer. */
  function MakeRequest(cmd: U32, cmdType: U32, rspType: U32, arg: U32,
                       blkCnt: U32, blkSize: U32, buffer: Addr): Request
  {
    Request(cmd, cmdType, rspType, arg, blkCnt, blkSize, buffer, if buffer != 0 then 1 else 0)
  }

  /** The call that carries a request: `os_ioctlv` with two input vectors (request and
      data buffer) and one output vector (response) for a DMA transfer or an SDHC card,
      plain `os_ioctl` with the request in and the response out otherwise. */
  function CommandCall(s: St, req: Request, len: U32): (e: Event)
    ensures IsIpc(e) && CommandOf(e) == [req]
    ensures e.Ioctlv? <==> req.isDma == 1 || s.sdhc == 1
  {
    if req.isDma == 1 || s.sdhc == 1 then Ioctlv(s.fd, IoctlSendCmd, 2, 1, req, req.dmaAddr, len)
    else Ioctl(s.fd, IoctlSendCmd, Command(req), 16)
  }

  /** The cache steps before the call: the request is always flushed, and the data
      buffer too unless the card is about to write into it (multi-block read). */
  function FlushesBefore(cmd: U32, buffer: Addr, len: U32): (f: seq<Event>)
    ensures 1 <= |f| <= 2 && f[0] == SyncAfterWrite(RequestBlock)
    ensures forall e :: e in f ==> e.SyncAfterWrite?
    ensures SyncAfterWrite(DataBuffer(buffer, len)) in f <==> cmd != CmdReadMultiBlock && buffer != 0
  {
    [SyncAfterWrite(RequestBlock)] +
    (if cmd != CmdReadMultiBlock && buffer != 0 then [SyncAfterWrite(DataBuffer(buffer, len))] else [])
  }

  /** The cache steps after the call: none after a failure; after a success the data
      buffer is invalidated unless the card only read it (multi-block write), and the
      response block is invalidated when a reply of at most 16 bytes is wanted. */
  function InvalidatesAfter(cmd: U32, buffer: Addr, len: U32, ret: Int32, reply: bool, rlen: nat): (v: seq<Event>)
    ensures forall e :: e in v ==> e.SyncBeforeRead?
    ensures ret < 0 ==> v == []
    ensures SyncBeforeRead(DataBuffer(buffer, len)) in v <==> ret >= 0 && cmd != CmdWriteMultiBlock && buffer != 0
    ensures SyncBeforeRead(ResponseBlock) in v <==> ret >= 0 && reply && rlen <= 16
  {
    if ret < 0 then [] else
      (if cmd != CmdWriteMultiBlock && buffer != 0 then [SyncBeforeRead(DataBuffer(buffer, len))] else []) +
      (if reply && rlen <= 16 then [SyncBeforeRead(ResponseBlock)] else [])
  }

  /** `__sdio_sendcommand` (`reply` stands for a non-null reply pointer): flush,
      call, and after a successful call invalidate and copy the first `rlen` bytes
      of the response out if a reply of at most 16 bytes is wanted. */
  function SendCommand(s: St, o: Oracle, cmd: U32, cmdType: U32, rspType: U32, arg: U32,
                       blkCnt: U32, blkSize: U32, buffer: Addr, reply: bool, rlen: nat): (r: Out<CmdResult>)
    ensures SameVars(s, r.st)
  {
    var req := MakeRequest(cmd, cmdType, rspType, arg, blkCnt, blkSize, buffer);
    var len := Wrap(blkSize * blkCnt);
    var s1 := Note(s, SyncAfterWrite(RequestBlock));
    var s2 := if cmd != CmdReadMultiBlock && buffer != 0 then Note(s1, SyncAfterWrite(DataBuffer(buffer, len))) else s1;
    var a := Ask(s2, o, CommandCall(s, req, len));
    var ret := a.val.ret;
    if ret < 0 then Out(a.st, CmdResult(ret, None)) else
    var s3 := if cmd != CmdWriteMultiBlock && buffer != 0 then Note(a.st, SyncBeforeRead(DataBuffer(buffer, len))) else a.st;
    if reply && rlen <= 16 then Out(Note(s3, SyncBeforeRead(ResponseBlock)), CmdResult(ret, Some(a.val.response[..rlen])))
    else Out(s3, CmdResult(ret, None))
  }

  // ---------------------------------------------------------------------------
  // Clock, status, reset

  /** `__sdio_setclock`. */
  function SetClock(s: St, o: Oracle, enable: U32): (r: Out<Int32>)
    ensures SameVars(s, r.st)
  {
    var s1 := Note(s, SyncAfterWrite(ClockWord));
    var a := Ask(s1, o, Ioctl(s.fd, IoctlSetClk, Word(enable), 0));
    Out(a.st, a.val.ret)
  }

  /** `__sdio_getstatus`: the call's error code if it failed, the status word read
      as a `s32` otherwise. */
  function GetStatus(s: St, o: Oracle): (r: Out<Int32>)
    ensures SameVars(s, r.st)
  {
    var s1 := Note(s, SyncAfterWrite(StatusWord));
    var a := Ask(s1, o, Ioctl(s.fd, IoctlGetStatus, NoInput, 4));
    Out(a.st, if a.val.ret < 0 then a.val.ret else ToS32(a.val.word))
  }

  /** `__sdio_resetcard`: clears the card address, then on success takes it from the
      upper half of the word and returns the lower half. */
  function ResetCard(s: St, o: Oracle): (r: Out<Int32>)
    ensures r.st.fd == s.fd && r.st.sd0Initialized == s.sd0Initialized && r.st.sdhc == s.sdhc
    ensures r.st.sdioInitialized == s.sdioInitialized
  {
    var s1 := Note(s, SyncAfterWrite(StatusWord)).(rca := 0);
    var a := Ask(s1, o, Ioctl(s.fd, IoctlResetCard, NoInput, 4));
    if a.val.ret < 0 then Out(a.st, a.val.ret)
    else Out(a.st.(rca := CardAddress(a.val.word)), ResetCode(a.val.word) as Int32)
  }

  // ---------------------------------------------------------------------------
  // Host-controller registers

  function ReadHcrCall(fd: Int32, reg: U32, size: U32): Event {
    Ioctl(fd, IoctlReadHcReg, Query([reg, 0, 0, size, 0, 0]), 4)
  }

  function WriteHcrCall(fd: Int32, reg: U32, size: U32, data: U32): Event {
    Ioctl(fd, IoctlWriteHcReg, Query([reg, 0, 0, size, data, 0]), 0)
  }

  /** `__sdio_gethcr`: `*val` is whatever the read left in the value word, also when
      the call failed. */
  function GetHcr(s: St, o: Oracle, reg: U32, size: U32): (r: Out<HcrRead>)
    ensures SameVars(s, r.st)
  {
    var s1 := Note(s, SyncAfterWrite(QueryBlock));
    var a := Ask(s1, o, ReadHcrCall(s.fd, reg, size));
    var s2 := Note(a.st, SyncBeforeRead(RegisterValue));
    Out(s2, HcrRead(a.val.ret, a.val.word))
  }

  /** `__sdio_sethcr`. */
  function SetHcr(s: St, o: Oracle, reg: U32, size: U32, data: U32): (r: Out<Int32>)
    ensures SameVars(s, r.st)
  {
    var s1 := Note(s, SyncAfterWrite(QueryBlock));
    var a := Ask(s1, o, WriteHcrCall(s.fd, reg, size, data));
    Out(a.st, a.val.ret)
  }

  /** The polling loop of `__sdio_waithcr` with `tries` attempts left: read the
      register; stop with the read's status if it failed, with 0 if the condition
      holds; otherwise delay 10 ms and try again; -1 once no attempt is left. */
  function WaitLoop(s: St, o: Oracle, reg: U32, size: U32, unset: U32, mask: U32, tries: nat): (r: Out<Int32>)
    ensures SameVars(s, r.st)
    ensures r.val <= 0
    decreases tries
  {
    if tries == 0 then Out(s, -1)
    else
      var g := GetHcr(s, o, reg, size);
      if g.val.ret < 0 then Out(g.st, g.val.ret)
      else if Reached(g.val.val, unset, mask) then Out(g.st, 0)
      else WaitLoop(Note(g.st, Delay(10000)), o, reg, size, unset, mask, tries - 1)
  }

  /** `__sdio_waithcr`: at most 10 attempts. */
  function WaitHcr(s: St, o: Oracle, reg: U32, size: U32, unset: U32, mask: U32): Out<Int32> {
    WaitLoop(s, o, reg, size, unset, mask, 10)
  }

  /** `__sdio_setbuswidth`: read the Host Control register and, if that worked,
      write it back with the Data Transfer Width bit for `busWidth`. */
  function SetHostBusWidth(s: St, o: Oracle, busWidth: U32): (r: Out<Int32>)
    ensures SameVars(s, r.st)
  {
    var g := GetHcr(s, o, HcrHostControl, 1);
    if g.val.ret < 0 then Out(g.st, g.val.ret)
    else SetHcr(g.st, o, HcrHostControl, 1, HostControl(g.val.val, busWidth))
  }

  // ---------------------------------------------------------------------------
  // Card commands

  /** CMD7 with the card's address: select it. */
  function SelectRequest(rca: U16): Request {
    MakeRequest(CmdSelect, CmdTypeAc, ResponseR1b, AddressArgument(rca), 0, 0, 0)
  }

  /** CMD7 with address 0: deselect every card. */
  function DeselectRequest(): Request {
    MakeRequest(CmdDeselect, CmdTypeAc, ResponseR1b, 0, 0, 0, 0)
  }

  function BlockLengthRequest(len: U32): Request {
    MakeRequest(CmdSetBlockLen, CmdTypeAc, ResponseR1, len, 0, 0, 0)
  }

  /** CMD55: the next command is an application command for the card at `rca`. */
  function AppCmdRequest(rca: U16): Request {
    MakeRequest(CmdAppCmd, CmdTypeAc, ResponseR1, AddressArgument(rca), 0, 0, 0)
  }

  /** ACMD6 with the bus width code. */
  function BusWidthRequest(busWidth: U32): Request {
    MakeRequest(AcmdSetBusWidth, CmdTypeAc, ResponseR1, BusWidthCode(busWidth), 0, 0, 0)
  }

  /** `__sd0_select`. */
  function Select(s: St, o: Oracle): (r: Out<Int32>)
    ensures SameVars(s, r.st)
  {
    var c := SendCommand(s, o, CmdSelect, CmdTypeAc, ResponseR1b, AddressArgument(s.rca), 0, 0, 0, false, 0);
    Out(c.st, c.val.ret)
  }

  /** `__sd0_deselect`. */
  function Deselect(s: St, o: Oracle): (r: Out<Int32>)
    ensures SameVars(s, r.st)
  {
    var c := SendCommand(s, o, CmdDeselect, CmdTypeAc, ResponseR1b, 0, 0, 0, 0, false, 0);
    Out(c.st, c.val.ret)
  }

  /** `__sd0_setblocklength`. */
  function SetBlockLength(s: St, o: Oracle, len: U32): (r: Out<Int32>)
    ensures SameVars(s, r.st)
  {
    var c := SendCommand(s, o, CmdSetBlockLen, CmdTypeAc, ResponseR1, len, 0, 0, 0, false, 0);
    Out(c.st, c.val.ret)
  }

  /** `__sd0_setbuswidth`: CMD55, and ACMD6 only if CMD55 succeeded. */
  function SetCardBusWidth(s: St, o: Oracle, busWidth: U32): (r: Out<Int32>)
    ensures SameVars(s, r.st)
  {
    var a := SendCommand(s, o, CmdAppCmd, CmdTypeAc, ResponseR1, AddressArgument(s.rca), 0, 0, 0, false, 0);
    if a.val.ret < 0 then Out(a.st, a.val.ret)
    else
      var c := SendCommand(a.st, o, AcmdSetBusWidth, CmdTypeAc, ResponseR1, BusWidthCode(busWidth), 0, 0, 0, false, 0);
      Out(c.st, c.val.ret)
  }

  // ---------------------------------------------------------------------------
  // Bring-up

  /** The reset and status read that open `__sd0_initio`; the status word is the
      `s32` result stored into a `u32`. The reset's own result is not looked at. */
  function ResetAndStatus(s: St, o: Oracle): Out<U32> {
    var g := GetStatus(ResetCard(s, o).st, o);
    Out(g.st, ToU32(g.val))
  }

  /** The branch of `__sd0_initio` for a card the controller has initialized:
      host bus width 4 and clock on, then the card itself is configured. */
  function BringUp(s: St, o: Oracle): Out<bool> {
    var b := SetHostBusWidth(s, o, 4);
    if b.val < 0 then Out(b.st, false) else
    var c := SetClock(b.st, o, 1);
    if c.val < 0 then Out(c.st, false) else
    ConfigureCard(c.st, o)
  }

  /** The card steps of that branch: select, block length 512 (deselect on
      failure), card bus width 4, deselect; `__sd0_initialized` is set on success. */
  function ConfigureCard(s: St, o: Oracle): Out<bool> {
    var sel := Select(s, o);
    if sel.val < 0 then Out(sel.st, false) else
    var bl := SetBlockLength(sel.st, o, PageSize512);
    if bl.val < 0 then Out(Deselect(bl.st, o).st, false) else
    var bw := SetCardBusWidth(bl.st, o, 4);
    var d := Deselect(bw.st, o);
    if bw.val < 0 then Out(d.st, false) else Out(d.st.(sd0Initialized := 1), true)
  }

  /** The branch of `__sd0_initio` for a card the controller has not initialized:
      software reset (all three reset bits), wait for the bits to clear, close and
      reopen the handle, and report failure. */
  function ResetController(s: St, o: Oracle): Out<bool> {
    var w := SetHcr(s, o, HcrSoftwareReset, 1, 7);
    var t := WaitHcr(w.st, o, HcrSoftwareReset, 1, 1, 7);
    var c := Ask(t.st, o, Close(t.st.fd));
    var op := Ask(c.st, o, Open(Sd0Path, 1));
    Out(op.st.(fd := op.val.ret), false)
  }

  /** `__sd0_initio`. */
  function InitIo(s: St, o: Oracle): Out<bool> {
    var g := ResetAndStatus(s, o);
    var status := g.val;
    if !HasBit(status, StatusCardInserted) then Out(g.st, false)
    else if HasBit(status, StatusCardInitialized) then
      BringUp(g.st.(sdhc := if HasBit(status, StatusCardSdhc) then 1 else 0), o)
    else ResetController(g.st, o)
  }

  // ---------------------------------------------------------------------------
  // Public surface

  /** `sdio_Deinitialize`: closes the handle if it is open (and leaves `__sd0_fd` as
      it is), clears `__sdio_initialized`, reports success. */
  function Deinitialize(s: St, o: Oracle): Out<bool> {
    var s1 := if s.fd >= 0 then Ask(s, o, Close(s.fd)).st else s;
    Out(s1.(sdioInitialized := 0), true)
  }

  /** `sdio_Startup`. */
  function Startup(s: St, o: Oracle): Out<bool> {
    if s.sdioInitialized == 1 then Out(s, true) else
    var op := Ask(s, o, Open(Sd0Path, 0));
    var s1 := op.st.(fd := op.val.ret);
    if s1.fd < 0 then Out(Deinitialize(s1, o).st, false) else
    var i := InitIo(s1, o);
    if !i.val then Out(Deinitialize(i.st, o).st, false)
    else Out(i.st.(sdioInitialized := 1), true)
  }

  /** `sdio_Shutdown`: gated on `__sd0_initialized`. */
  function Shutdown(s: St, o: Oracle): Out<bool> {
    if s.sd0Initialized == 0 then Out(s, false)
    else Out(Deinitialize(s, o).st.(sd0Initialized := 0), true)
  }

  /** The data command of a transfer: sent as an addressed command (type AC) with
      an R1 response, `numSectors` blocks of 512 bytes. */
  function DataRequest(cmd: U32, arg: U32, numSectors: U32, buffer: Addr): Request {
    MakeRequest(cmd, CmdTypeAc, ResponseR1, arg, numSectors, PageSize512, buffer)
  }

  /** `sdio_Transfer`. */
  function Transfer(s: St, o: Oracle, cmd: U32, sector: U32, numSectors: U32, buffer: Addr): Out<bool> {
    if Misaligned(buffer) then Out(Note(s, GpioOn(Oslot)), false)
    else if buffer == 0 then Out(s, false)
    else
      var sel := Select(s, o);
      if sel.val < 0 then Out(sel.st, false)
      else
        var arg := SectorArgument(sector, sel.st.sdhc);
        var c := SendCommand(sel.st, o, cmd, CmdTypeAc, ResponseR1, arg, numSectors, PageSize512, buffer, false, 0);
        var d := Deselect(c.st, o);
        Out(d.st, c.val.ret >= 0)
  }

  /** `sdio_ReadSectors`. */
  function ReadSectors(s: St, o: Oracle, sector: U32, numSectors: U32, buffer: Addr): Out<bool> {
    Transfer(s, o, CmdReadMultiBlock, sector, numSectors, buffer)
  }

  /** `sdio_WriteSectors`. */
  function WriteSectors(s: St, o: Oracle, sector: U32, numSectors: U32, buffer: Addr): Out<bool> {
    Transfer(s, o, CmdWriteMultiBlock, sector, numSectors, buffer)
  }

  /** `sdio_IsInserted`. */
  function IsInserted(s: St, o: Oracle): Out<bool> {
    var g := GetStatus(s, o);
    Out(g.st, HasBit(ToU32(g.val), StatusCardInserted))
  }

  /** `sdio_IsInitialized`. */
  function IsInitialized(s: St, o: Oracle): Out<bool> {
    var g := GetStatus(s, o);
    Out(g.st, HasBit(ToU32(g.val), StatusCardInitialized))
  }
}
