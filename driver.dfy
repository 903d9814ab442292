/** The Wii SD driver itself: the module-level variables of wiisd.c as the fields
    of one Driver object, and each routine as a method that runs the C code's
    steps in order against the service. Every method is proved to leave the
    variables and the trace, and to return, exactly what the matching function
    of module Sdio says; the properties of those functions are in SdioLemmas. */
module WiiSd {
  import opened Ipc
  import opened SdioBits
  import Sdio
  import SdioLemmas

  class Driver {
    var fd: Int32             // __sd0_fd
    var rca: U16              // __sd0_rca
    var sd0Initialized: int   // __sd0_initialized
    var sdhc: int             // __sd0_sdhc
    var sdioInitialized: int  // __sdio_initialized
    /** The I/O service the driver talks to. */
    const ios: Service

    /** The variables and the service's trace, as one value. */
    function State(): Sdio.St
      reads this, ios
    {
      Sdio.St(fd, rca, sd0Initialized, sdhc, sdioInitialized, ios.trace)
    }

    /** The three flags only ever hold 0 or 1; the constructor establishes it and
        every public routine keeps it. */
    ghost predicate Valid()
      reads this, ios
    {
      Sdio.Valid(State())
    }

    /** The driver as loaded: no handle, no card address, nothing initialized. */
    constructor (ios: Service)
      ensures this.ios == ios && State() == Sdio.Boot(ios.trace) && Valid()
    {
      this.ios := ios;
      fd := -1;
      rca := 0;
      sd0Initialized := 0;
      sdhc := 0;
      sdioInitialized := 0;
    }

    // -------------------------------------------------------------------------
    // Command codec

    /** `__sdio_sendcommand`. */
    method SendCommand(cmd: U32, cmdType: U32, rspType: U32, arg: U32, blkCnt: U32, blkSize: U32,
                       buffer: Addr, reply: bool, rlen: nat) returns (ret: Int32, copied: Sdio.Option<seq<bv8>>)
      modifies ios
      ensures var r := Sdio.SendCommand(old(State()), ios.oracle, cmd, cmdType, rspType, arg, blkCnt, blkSize, buffer, reply, rlen);
              State() == r.st && ret == r.val.ret && copied == r.val.reply
    {
      var request := Request(cmd, cmdType, rspType, arg, blkCnt, blkSize, buffer, if buffer != 0 then 1 else 0);
      var len := Wrap(blkSize * blkCnt);
      ios.Note(SyncAfterWrite(RequestBlock));
      if cmd != CmdReadMultiBlock && buffer != 0 {
        ios.Note(SyncAfterWrite(DataBuffer(buffer, len)));
      }
      var r: Reply;
      if request.isDma == 1 || sdhc == 1 {
        r := ios.Call(Ioctlv(fd, IoctlSendCmd, 2, 1, request, buffer, len));
      } else {
        r := ios.Call(Ioctl(fd, IoctlSendCmd, Command(request), 16));
      }
      ret := r.ret;
      copied := Sdio.None;
      if ret >= 0 {
        if cmd != CmdWriteMultiBlock && buffer != 0 {
          ios.Note(SyncBeforeRead(DataBuffer(buffer, len)));
        }
        if reply && rlen <= 16 {
          ios.Note(SyncBeforeRead(ResponseBlock));
          copied := Sdio.Some(r.response[..rlen]);
        }
      }
    }

    // -------------------------------------------------------------------------
    // Clock, status, reset

    /** `__sdio_setclock`. */
    method SetClock(enable: U32) returns (ret: Int32)
      modifies ios
      ensures var r := Sdio.SetClock(old(State()), ios.oracle, enable); State() == r.st && ret == r.val
    {
      ios.Note(SyncAfterWrite(ClockWord));
      var r := ios.Call(Ioctl(fd, IoctlSetClk, Word(enable), 0));
      ret := r.ret;
    }

    /** `__sdio_getstatus`. */
    method GetStatus() returns (ret: Int32)
      modifies ios
      ensures var r := Sdio.GetStatus(old(State()), ios.oracle); State() == r.st && ret == r.val
    {
      ios.Note(SyncAfterWrite(StatusWord));
      var r := ios.Call(Ioctl(fd, IoctlGetStatus, NoInput, 4));
      if r.ret < 0 {
        return r.ret;
      }
      ret := ToS32(r.word);
    }

    /** `__sdio_resetcard`. */
    method ResetCard() returns (ret: Int32)
      modifies this, ios
      ensures var r := Sdio.ResetCard(old(State()), ios.oracle); State() == r.st && ret == r.val
    {
      ios.Note(SyncAfterWrite(StatusWord));
      rca := 0;
      var r := ios.Call(Ioctl(fd, IoctlResetCard, NoInput, 4));
      if r.ret < 0 {
        return r.ret;
      }
      rca := CardAddress(r.word);
      ret := ResetCode(r.word);
    }

    // -------------------------------------------------------------------------
    // Host-controller registers

    /** `__sdio_gethcr`. */
    method GetHcr(reg: U32, size: U32) returns (ret: Int32, val: U32)
      modifies ios
      ensures var r := Sdio.GetHcr(old(State()), ios.oracle, reg, size);
              State() == r.st && ret == r.val.ret && val == r.val.val
    {
      var query := [reg, 0, 0, size, 0, 0];
      ios.Note(SyncAfterWrite(QueryBlock));
      var r := ios.Call(Ioctl(fd, IoctlReadHcReg, Query(query), 4));
      ios.Note(SyncBeforeRead(RegisterValue));
      val := r.word;
      ret := r.ret;
    }

    /** `__sdio_sethcr`. */
    method SetHcr(reg: U32, size: U32, data: U32) returns (ret: Int32)
      modifies ios
      ensures var r := Sdio.SetHcr(old(State()), ios.oracle, reg, size, data); State() == r.st && ret == r.val
    {
      var query := [reg, 0, 0, size, data, 0];
      ios.Note(SyncAfterWrite(QueryBlock));
      var r := ios.Call(Ioctl(fd, IoctlWriteHcReg, Query(query), 0));
      ret := r.ret;
    }

    /** `__sdio_waithcr`. */
    method WaitHcr(reg: U32, size: U32, unset: U32, mask: U32) returns (ret: Int32)
      modifies ios
      ensures var r := Sdio.WaitHcr(old(State()), ios.oracle, reg, size, unset, mask); State() == r.st && ret == r.val
    {
      var tries := 10;
      while tries > 0
        invariant 0 <= tries <= 10
        invariant Sdio.WaitLoop(State(), ios.oracle, reg, size, unset, mask, tries)
               == Sdio.WaitHcr(old(State()), ios.oracle, reg, size, unset, mask)
        decreases tries
      {
        tries := tries - 1;
        var r, val := GetHcr(reg, size);
        if r < 0 {
          return r;
        }
        if Reached(val, unset, mask) {
          return 0;
        }
        ios.Note(Delay(10000));
      }
      ret := -1;
    }

    /** `__sdio_setbuswidth`. */
    method SetHostBusWidth(busWidth: U32) returns (ret: Int32)
      modifies ios
      ensures var r := Sdio.SetHostBusWidth(old(State()), ios.oracle, busWidth); State() == r.st && ret == r.val
    {
      var r, hcReg := GetHcr(HcrHostControl, 1);
      if r < 0 {
        return r;
      }
      hcReg := HostControl(hcReg, busWidth);
      ret := SetHcr(HcrHostControl, 1, hcReg);
    }

    // -------------------------------------------------------------------------
    // Card commands

    /** `__sd0_select`. */
    method Select() returns (ret: Int32)
      modifies ios
      ensures var r := Sdio.Select(old(State()), ios.oracle); State() == r.st && ret == r.val
    {
      var copied;
      ret, copied := SendCommand(CmdSelect, CmdTypeAc, ResponseR1b, AddressArgument(rca), 0, 0, 0, false, 0);
    }

    /** `__sd0_deselect`. */
    method Deselect() returns (ret: Int32)
      modifies ios
      ensures var r := Sdio.Deselect(old(State()), ios.oracle); State() == r.st && ret == r.val
    {
      var copied;
      ret, copied := SendCommand(CmdDeselect, CmdTypeAc, ResponseR1b, 0, 0, 0, 0, false, 0);
    }

    /** `__sd0_setblocklength`. */
    method SetBlockLength(len: U32) returns (ret: Int32)
      modifies ios
      ensures var r := Sdio.SetBlockLength(old(State()), ios.oracle, len); State() == r.st && ret == r.val
    {
      var copied;
      ret, copied := SendCommand(CmdSetBlockLen, CmdTypeAc, ResponseR1, len, 0, 0, 0, false, 0);
    }

    /** `__sd0_setbuswidth`. */
    method SetCardBusWidth(busWidth: U32) returns (ret: Int32)
      modifies ios
      ensures var r := Sdio.SetCardBusWidth(old(State()), ios.oracle, busWidth); State() == r.st && ret == r.val
    {
      var val := BusWidthCode(busWidth);
      var copied;
      ret, copied := SendCommand(CmdAppCmd, CmdTypeAc, ResponseR1, AddressArgument(rca), 0, 0, 0, false, 0);
      if ret < 0 {
        return;
      }
      ret, copied := SendCommand(AcmdSetBusWidth, CmdTypeAc, ResponseR1, val, 0, 0, 0, false, 0);
    }

    // -------------------------------------------------------------------------
    // Bring-up

    /** The branch of `__sd0_initio` for a card the controller has initialized. */
    method BringUp() returns (ok: bool)
      modifies this, ios
      ensures var r := Sdio.BringUp(old(State()), ios.oracle); State() == r.st && ok == r.val
    {
      var ret := SetHostBusWidth(4);
      if ret < 0 {
        return false;
      }
      ret := SetClock(1);
      if ret < 0 {
        return false;
      }
      ret := Select();
      if ret < 0 {
        return false;
      }
      ret := SetBlockLength(PageSize512);
      if ret < 0 {
        var _ := Deselect();
        return false;
      }
      ret := SetCardBusWidth(4);
      var _ := Deselect();
      if ret < 0 {
        return false;
      }
      sd0Initialized := 1;
      return true;
    }

    /** The branch of `__sd0_initio` for a card the controller has not initialized. */
    method ResetController() returns (ok: bool)
      modifies this, ios
      ensures var r := Sdio.ResetController(old(State()), ios.oracle); State() == r.st && ok == r.val
    {
      var _ := SetHcr(HcrSoftwareReset, 1, 7);
      var _ := WaitHcr(HcrSoftwareReset, 1, 1, 7);
      var _ := ios.Call(Close(fd));
      var r := ios.Call(Open(Sd0Path, 1));
      fd := r.ret;
      return false;
    }

    /** `__sd0_initio`. */
    method InitIo() returns (ok: bool)
      modifies this, ios
      ensures var r := Sdio.InitIo(old(State()), ios.oracle); State() == r.st && ok == r.val
      ensures old(Valid()) ==> Valid()
    {
      ghost var s0 := State();
      SdioLemmas.InitIoOutcome(s0, ios.oracle);
      var _ := ResetCard();
      var st := GetStatus();
      var status := ToU32(st);

      if !HasBit(status, StatusCardInserted) {
        return false;
      }

      if HasBit(status, StatusCardInitialized) {
        sdhc := if HasBit(status, StatusCardSdhc) then 1 else 0;
        ok := BringUp();
      } else {
        ok := ResetController();
      }
    }

    // -------------------------------------------------------------------------
    // Public surface

    /** `sdio_Deinitialize`. */
    method Deinitialize() returns (ok: bool)
      modifies this, ios
      ensures var r := Sdio.Deinitialize(old(State()), ios.oracle); State() == r.st && ok == r.val
      ensures old(Valid()) ==> Valid()
    {
      if fd >= 0 {
        var _ := ios.Call(Close(fd));
      }
      sdioInitialized := 0;
      return true;
    }

    /** `sdio_Startup`. */
    method Startup() returns (ok: bool)
      modifies this, ios
      ensures var r := Sdio.Startup(old(State()), ios.oracle); State() == r.st && ok == r.val
      ensures old(Valid()) ==> Valid()
    {
      if sdioInitialized == 1 {
        return true;
      }
      var r := ios.Call(Open(Sd0Path, 0));
      fd := r.ret;
      if fd < 0 {
        var _ := Deinitialize();
        return false;
      }
      var up := InitIo();
      if !up {
        var _ := Deinitialize();
        return false;
      }
      sdioInitialized := 1;
      return true;
    }

    /** `sdio_Shutdown`. */
    method Shutdown() returns (ok: bool)
      modifies this, ios
      ensures var r := Sdio.Shutdown(old(State()), ios.oracle); State() == r.st && ok == r.val
      ensures old(Valid()) ==> Valid()
    {
      if sd0Initialized == 0 {
        return false;
      }
      var _ := Deinitialize();
      sd0Initialized := 0;
      return true;
    }

    /** `sdio_Transfer`. */
    method Transfer(cmd: U32, sector: U32, numSectors: U32, buffer: Addr) returns (ok: bool)
      modifies ios
      ensures var r := Sdio.Transfer(old(State()), ios.oracle, cmd, sector, numSectors, buffer);
              State() == r.st && ok == r.val
      ensures old(Valid()) ==> Valid()
    {
      if buffer % 32 != 0 {
        ios.Note(GpioOn(Oslot));
        return false;
      }
      if buffer == 0 {
        return false;
      }
      var sel := Select();
      if sel < 0 {
        return false;
      }
      var arg: U32 := sector;
      if sdhc == 0 {
        arg := Wrap(sector as int * 512);
      }
      var ret, copied := SendCommand(cmd, CmdTypeAc, ResponseR1, arg, numSectors, PageSize512, buffer, false, 0);
      var _ := Deselect();
      return ret >= 0;
    }

    /** `sdio_ReadSectors`. */
    method ReadSectors(sector: U32, numSectors: U32, buffer: Addr) returns (ok: bool)
      modifies ios
      ensures var r := Sdio.ReadSectors(old(State()), ios.oracle, sector, numSectors, buffer);
              State() == r.st && ok == r.val
      ensures old(Valid()) ==> Valid()
    {
      ok := Transfer(CmdReadMultiBlock, sector, numSectors, buffer);
    }

    /** `sdio_WriteSectors`. */
    method WriteSectors(sector: U32, numSectors: U32, buffer: Addr) returns (ok: bool)
      modifies ios
      ensures var r := Sdio.WriteSectors(old(State()), ios.oracle, sector, numSectors, buffer);
              State() == r.st && ok == r.val
      ensures old(Valid()) ==> Valid()
    {
      ok := Transfer(CmdWriteMultiBlock, sector, numSectors, buffer);
    }

    /** `sdio_ClearStatus`: nothing to clear, nothing asked of the service. */
    method ClearStatus() returns (ok: bool)
      ensures ok
    {
      return true;
    }

    /** `sdio_IsInserted`. */
    method IsInserted() returns (inserted: bool)
      modifies ios
      ensures var r := Sdio.IsInserted(old(State()), ios.oracle); State() == r.st && inserted == r.val
      ensures old(Valid()) ==> Valid()
    {
      var st := GetStatus();
      return HasBit(ToU32(st), StatusCardInserted);
    }

    /** `sdio_IsInitialized`. */
    method IsInitialized() returns (initialized: bool)
      modifies ios
      ensures var r := Sdio.IsInitialized(old(State()), ios.oracle); State() == r.st && initialized == r.val
      ensures old(Valid()) ==> Valid()
    {
      var st := GetStatus();
      return HasBit(ToU32(st), StatusCardInitialized);
    }
  }
}
