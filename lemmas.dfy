/** Properties of the driver's routines, stated on the functions of module Sdio:
    which calls each routine makes and which commands reach the card, in what
    order, what it returns, and which variables it changes. */
module SdioLemmas {
  import opened Ipc
  import opened SdioBits
  import opened Sdio

  // ---------------------------------------------------------------------------
  // Traces

  /** A trace extended by cache steps, one call and more cache steps holds exactly
      one more call, and the commands of that call. */
  lemma OneCall(t: seq<Event>, pre: seq<Event>, e: Event, post: seq<Event>)
    requires forall x :: x in pre ==> !IsIpc(x)
    requires forall x :: x in post ==> !IsIpc(x)
    requires IsIpc(e)
    ensures Calls(t + pre + [e] + post) == Calls(t) + [e]
    ensures Commands(t + pre + [e] + post) == Commands(t) + CommandOf(e)
  {
    OneCallCalls(t, pre, e, post);
    OneCallCommands(t, pre, e, post);
  }

  lemma OneCallCalls(t: seq<Event>, pre: seq<Event>, e: Event, post: seq<Event>)
    requires forall x :: x in pre ==> !IsIpc(x)
    requires forall x :: x in post ==> !IsIpc(x)
    requires IsIpc(e)
    ensures Calls(t + pre + [e] + post) == Calls(t) + [e]
  {
    var a := t + pre;
    var b := a + [e];
    NoCalls(pre);
    NoCalls(post);
    CallsAppend(t, pre);
    assert Calls(a) == Calls(t);
    CallsSnoc(a, e);
    CallsAppend(b, post);
    assert Calls(b + post) == Calls(b);
  }

  lemma OneCallCommands(t: seq<Event>, pre: seq<Event>, e: Event, post: seq<Event>)
    requires forall x :: x in pre ==> !IsIpc(x)
    requires forall x :: x in post ==> !IsIpc(x)
    ensures Commands(t + pre + [e] + post) == Commands(t) + CommandOf(e)
  {
    var a := t + pre;
    var b := a + [e];
    NoCalls(pre);
    NoCalls(post);
    CommandsAppend(t, pre);
    assert Commands(a) == Commands(t);
    CommandsSnoc(a, e);
    CommandsAppend(b, post);
    assert Commands(b + post) == Commands(b);
  }

  /** `n` copies of the same call. */
  function Repeat(e: Event, n: nat): (r: seq<Event>)
    ensures |r| == n && forall i :: 0 <= i < n ==> r[i] == e
  {
    if n == 0 then [] else [e] + Repeat(e, n - 1)
  }

  // ---------------------------------------------------------------------------
  // A sequence extended step by step (a trace's calls or commands, one routine
  // after another) is extended by the steps' elements in order.

  lemma Extended2<T>(a: seq<T>, b: seq<T>, c: seq<T>, x: T, y: T)
    requires b == a + [x] && c == b + [y]
    ensures c == a + [x, y]
  {
  }

  lemma Extended3<T>(a: seq<T>, b: seq<T>, c: seq<T>, d: seq<T>, x: T, y: T, z: T)
    requires b == a + [x] && c == b + [y] && d == c + [z]
    ensures d == a + [x, y, z]
  {
  }

  lemma Extended4<T>(a: seq<T>, b: seq<T>, c: seq<T>, d: seq<T>, e: seq<T>, x: T, y: T, z: T, w: T)
    requires b == a + [x] && c == b + [y] && d == c + [z] && e == d + [w]
    ensures e == a + [x, y, z, w]
  {
  }

  lemma Extended5<T>(a: seq<T>, b: seq<T>, c: seq<T>, d: seq<T>, e: seq<T>, x: T, y: T, z: T, v: T, w: T)
    requires b == a + [x] && c == b + [y] && d == c + [z, v] && e == d + [w]
    ensures e == a + [x, y, z, v, w]
  {
  }

  // ---------------------------------------------------------------------------
  // Command codec

  /** The whole trace of `__sdio_sendcommand`: the flushes, the one call that carries
      the request, and the invalidations its outcome calls for; the status is the
      call's and the reply, if copied, is the first `rlen` bytes of the response. */
  lemma SendCommandTrace(s: St, o: Oracle, cmd: U32, cmdType: U32, rspType: U32, arg: U32,
                         blkCnt: U32, blkSize: U32, buffer: Addr, reply: bool, rlen: nat)
    ensures var len := Wrap(blkSize * blkCnt);
            var call := CommandCall(s, MakeRequest(cmd, cmdType, rspType, arg, blkCnt, blkSize, buffer), len);
            var pre := s.trace + FlushesBefore(cmd, buffer, len);
            var ans := o(pre, call);
            var r := SendCommand(s, o, cmd, cmdType, rspType, arg, blkCnt, blkSize, buffer, reply, rlen);
            && r.st.trace == pre + [call] + InvalidatesAfter(cmd, buffer, len, ans.ret, reply, rlen)
            && r.val.ret == ans.ret
            && (r.val.reply.Some? <==> ans.ret >= 0 && reply && rlen <= 16)
            && (r.val.reply.Some? ==> r.val.reply.value == ans.response[..rlen])
  {
    var len := Wrap(blkSize * blkCnt);
    var d := [SyncAfterWrite(DataBuffer(buffer, len))];
    var f := [SyncAfterWrite(RequestBlock)];
    if cmd != CmdReadMultiBlock && buffer != 0 {
      assert s.trace + FlushesBefore(cmd, buffer, len) == s.trace + f + d;
    } else {
      assert s.trace + FlushesBefore(cmd, buffer, len) == s.trace + f;
    }
  }

  /** `__sdio_sendcommand` makes exactly one call, which hands exactly one request
      to the card: the request built from the arguments, a DMA transfer exactly
      when there is a buffer. The call is `os_ioctlv` exactly for a DMA transfer
      or an SDHC card. */
  lemma SendCommandCalls(s: St, o: Oracle, cmd: U32, cmdType: U32, rspType: U32, arg: U32,
                         blkCnt: U32, blkSize: U32, buffer: Addr, reply: bool, rlen: nat)
    ensures var req := MakeRequest(cmd, cmdType, rspType, arg, blkCnt, blkSize, buffer);
            var call := CommandCall(s, req, Wrap(blkSize * blkCnt));
            var r := SendCommand(s, o, cmd, cmdType, rspType, arg, blkCnt, blkSize, buffer, reply, rlen);
            && Calls(r.st.trace) == Calls(s.trace) + [call]
            && Commands(r.st.trace) == Commands(s.trace) + [req]
            && (req.isDma == 1 <==> buffer != 0)
            && (call.Ioctlv? <==> buffer != 0 || s.sdhc == 1)
  {
    var len := Wrap(blkSize * blkCnt);
    var req := MakeRequest(cmd, cmdType, rspType, arg, blkCnt, blkSize, buffer);
    var call := CommandCall(s, req, len);
    var ans := o(s.trace + FlushesBefore(cmd, buffer, len), call);
    SendCommandTrace(s, o, cmd, cmdType, rspType, arg, blkCnt, blkSize, buffer, reply, rlen);
    OneCall(s.trace, FlushesBefore(cmd, buffer, len), call, InvalidatesAfter(cmd, buffer, len, ans.ret, reply, rlen));
  }

  // ---------------------------------------------------------------------------
  // Clock, status, reset

  /** `__sdio_setclock` makes one call, the clock setting, and returns its status. */
  lemma SetClockCall(s: St, o: Oracle, enable: U32)
    ensures var call := Ioctl(s.fd, IoctlSetClk, Word(enable), 0);
            var r := SetClock(s, o, enable);
            && Calls(r.st.trace) == Calls(s.trace) + [call]
            && Commands(r.st.trace) == Commands(s.trace)
            && r.val == o(s.trace + [SyncAfterWrite(ClockWord)], call).ret
  {
    var call := Ioctl(s.fd, IoctlSetClk, Word(enable), 0);
    OneCall(s.trace, [SyncAfterWrite(ClockWord)], call, []);
    assert SetClock(s, o, enable).st.trace == s.trace + [SyncAfterWrite(ClockWord)] + [call] + [];
  }

  /** `__sdio_getstatus` makes one call. Stored back into a `u32`, its result is the
      status word when the call succeeded and the error code's bits when it failed;
      the result is negative for every failure and also for a status word with the
      top bit set. */
  lemma GetStatusCall(s: St, o: Oracle)
    ensures var call := Ioctl(s.fd, IoctlGetStatus, NoInput, 4);
            var ans := o(s.trace + [SyncAfterWrite(StatusWord)], call);
            var r := GetStatus(s, o);
            && Calls(r.st.trace) == Calls(s.trace) + [call]
            && Commands(r.st.trace) == Commands(s.trace)
            && ToU32(r.val) == (if ans.ret < 0 then ToU32(ans.ret) else ans.word)
            && (r.val < 0 <==> ans.ret < 0 || ans.word >= TwoTo31)
  {
    var call := Ioctl(s.fd, IoctlGetStatus, NoInput, 4);
    var ans := o(s.trace + [SyncAfterWrite(StatusWord)], call);
    OneCall(s.trace, [SyncAfterWrite(StatusWord)], call, []);
    assert GetStatus(s, o).st.trace == s.trace + [SyncAfterWrite(StatusWord)] + [call] + [];
    UnsignedRoundTrip(ans.word);
  }

  /** `__sdio_resetcard` makes one call. The card address is cleared before it and
      stays cleared if it fails, and the call's status is returned; otherwise the
      new card address and the returned status are the upper and lower halves of
      the word the call left behind. */
  lemma ResetCardCall(s: St, o: Oracle)
    ensures var call := Ioctl(s.fd, IoctlResetCard, NoInput, 4);
            var ans := o(s.trace + [SyncAfterWrite(StatusWord)], call);
            var r := ResetCard(s, o);
            && Calls(r.st.trace) == Calls(s.trace) + [call]
            && Commands(r.st.trace) == Commands(s.trace)
            && (ans.ret < 0 ==> r.val == ans.ret && r.st.rca == 0)
            && (ans.ret >= 0 ==> 0 <= r.val < 0x1_0000 && r.st.rca * 0x1_0000 + r.val == ans.word)
  {
    var call := Ioctl(s.fd, IoctlResetCard, NoInput, 4);
    var ans := o(s.trace + [SyncAfterWrite(StatusWord)], call);
    OneCall(s.trace, [SyncAfterWrite(StatusWord)], call, []);
    assert ResetCard(s, o).st.trace == s.trace + [SyncAfterWrite(StatusWord)] + [call] + [];
    ResetWordSplit(ans.word);
  }
  /** The card reset's result is not checked. When it fails, `__sd0_rca` is 0, so
      the select a later bring-up sends is CMD7 with argument 0: the very command
      the deselect sends, which deselects every card. */
  lemma FailedResetSelectIsDeselect(s: St, o: Oracle)
    requires o(s.trace + [SyncAfterWrite(StatusWord)], Ioctl(s.fd, IoctlResetCard, NoInput, 4)).ret < 0
    ensures ResetCard(s, o).st.rca == 0
    ensures SelectRequest(ResetCard(s, o).st.rca) == DeselectRequest()
  {
    ResetCardCall(s, o);
  }


  // ---------------------------------------------------------------------------
  // Host-controller registers

  /** `__sdio_gethcr` makes one call, the register query, and gives back the call's
      status together with the word the call left, whether it succeeded or not. */
  lemma GetHcrCall(s: St, o: Oracle, reg: U32, size: U32)
    ensures var call := ReadHcrCall(s.fd, reg, size);
            var r := GetHcr(s, o, reg, size);
            && r.st.trace == s.trace + [SyncAfterWrite(QueryBlock), call, SyncBeforeRead(RegisterValue)]
            && Calls(r.st.trace) == Calls(s.trace) + [call]
            && Commands(r.st.trace) == Commands(s.trace)
            && r.val == HcrRead(o(s.trace + [SyncAfterWrite(QueryBlock)], call).ret,
                                o(s.trace + [SyncAfterWrite(QueryBlock)], call).word)
  {
    var call := ReadHcrCall(s.fd, reg, size);
    OneCall(s.trace, [SyncAfterWrite(QueryBlock)], call, [SyncBeforeRead(RegisterValue)]);
    assert GetHcr(s, o, reg, size).st.trace ==
           s.trace + [SyncAfterWrite(QueryBlock)] + [call] + [SyncBeforeRead(RegisterValue)];
  }

  /** `__sdio_sethcr` makes one call, the register write, and returns its status. */
  lemma SetHcrCall(s: St, o: Oracle, reg: U32, size: U32, data: U32)
    ensures var call := WriteHcrCall(s.fd, reg, size, data);
            var r := SetHcr(s, o, reg, size, data);
            && Calls(r.st.trace) == Calls(s.trace) + [call]
            && Commands(r.st.trace) == Commands(s.trace)
            && r.val == o(s.trace + [SyncAfterWrite(QueryBlock)], call).ret
  {
    var call := WriteHcrCall(s.fd, reg, size, data);
    OneCall(s.trace, [SyncAfterWrite(QueryBlock)], call, []);
    assert SetHcr(s, o, reg, size, data).st.trace == s.trace + [SyncAfterWrite(QueryBlock)] + [call] + [];
  }

  /** One more read in front of `k` reads is `k + 1` reads. */
  lemma ReadsStep(a: seq<Event>, b: seq<Event>, c: seq<Event>, read: Event, k: nat)
    requires b == a + [read] && c == b + Repeat(read, k)
    ensures c == a + Repeat(read, k + 1)
  {
    assert Repeat(read, k + 1) == [read] + Repeat(read, k);
  }

  /** The events of one round of the polling loop that does not stop: the query is
      flushed, the register read, the value invalidated, and then 10 ms pass. */
  function PollRound(fd: Int32, reg: U32, size: U32): (r: seq<Event>)
    ensures |r| == 4 && r[3] == Delay(10000)
  {
    [SyncAfterWrite(QueryBlock), ReadHcrCall(fd, reg, size), SyncBeforeRead(RegisterValue), Delay(10000)]
  }

  /** `n` rounds of the polling loop that do not stop. */
  function Rounds(fd: Int32, reg: U32, size: U32, n: nat): (r: seq<Event>)
    ensures |r| == 4 * n
  {
    if n == 0 then [] else PollRound(fd, reg, size) + Rounds(fd, reg, size, n - 1)
  }

  /** One round of the polling loop: the register is read once (three events:
      flush, call, invalidate); the loop stops right there when the read fails or
      shows the condition, and otherwise delays and goes on with one try less
      from state `n`. */
  lemma PollOnce(s: St, o: Oracle, reg: U32, size: U32, unset: U32, mask: U32, tries: nat)
    returns (n: St, stop: bool)
    requires tries > 0
    ensures var ans := o(s.trace + [SyncAfterWrite(QueryBlock)], ReadHcrCall(s.fd, reg, size));
            stop <==> ans.ret < 0 || Reached(ans.word, unset, mask)
    ensures SameVars(s, n)
    ensures stop ==> n.trace == s.trace + [SyncAfterWrite(QueryBlock), ReadHcrCall(s.fd, reg, size), SyncBeforeRead(RegisterValue)]
    ensures !stop ==> n.trace == s.trace + PollRound(s.fd, reg, size)
    ensures Calls(n.trace) == Calls(s.trace) + [ReadHcrCall(s.fd, reg, size)]
    ensures Commands(n.trace) == Commands(s.trace)
    ensures stop ==> WaitLoop(s, o, reg, size, unset, mask, tries).st == n
    ensures !stop ==> WaitLoop(s, o, reg, size, unset, mask, tries) == WaitLoop(n, o, reg, size, unset, mask, tries - 1)
  {
    var g := GetHcr(s, o, reg, size);
    GetHcrCall(s, o, reg, size);
    stop := g.val.ret < 0 || Reached(g.val.val, unset, mask);
    if stop {
      n := g.st;
    } else {
      n := Note(g.st, Delay(10000));
      CallsSnoc(g.st.trace, Delay(10000));
      CommandsSnoc(g.st.trace, Delay(10000));
    }
  }

  /** The polling loop reads the register `k` times, at least once (if it may try
      at all) and at most `tries` times, and makes no other call. */
  lemma {:induction false} WaitLoopReads(s: St, o: Oracle, reg: U32, size: U32, unset: U32, mask: U32, tries: nat)
    returns (k: nat)
    ensures (tries > 0 ==> 1 <= k) && k <= tries
    ensures Calls(WaitLoop(s, o, reg, size, unset, mask, tries).st.trace)
            == Calls(s.trace) + Repeat(ReadHcrCall(s.fd, reg, size), k)
    decreases tries
  {
    var read := ReadHcrCall(s.fd, reg, size);
    if tries == 0 {
      k := 0;
    } else {
      var n, stop := PollOnce(s, o, reg, size, unset, mask, tries);
      var r := WaitLoop(s, o, reg, size, unset, mask, tries);
      if stop {
        k := 1;
        assert Repeat(read, 1) == [read] + Repeat(read, 0);
      } else {
        var k' := WaitLoopReads(n, o, reg, size, unset, mask, tries - 1);
        k := k' + 1;
        ReadsStep(Calls(s.trace), Calls(n.trace), Calls(r.st.trace), read, k');
      }
    }
  }

  /** The polling loop sends no command to the card. */
  lemma {:induction false} WaitLoopSendsNoCommand(s: St, o: Oracle, reg: U32, size: U32, unset: U32, mask: U32, tries: nat)
    ensures Commands(WaitLoop(s, o, reg, size, unset, mask, tries).st.trace) == Commands(s.trace)
    decreases tries
  {
    if tries > 0 {
      var n, stop := PollOnce(s, o, reg, size, unset, mask, tries);
      if !stop {
        WaitLoopSendsNoCommand(n, o, reg, size, unset, mask, tries - 1);
      }
    }
  }

  /** The read the loop makes after the trace `t` succeeds and does not show the
      awaited condition. */
  ghost predicate QuietRead(o: Oracle, t: seq<Event>, fd: Int32, reg: U32, size: U32, unset: U32, mask: U32) {
    var ans := o(t + [SyncAfterWrite(QueryBlock)], ReadHcrCall(fd, reg, size));
    ans.ret >= 0 && !Reached(ans.word, unset, mask)
  }

  /** Each of the `tries` reads a loop started after `t` would make, if none had
      stopped it, is quiet. */
  ghost predicate NeverReached(o: Oracle, t: seq<Event>, fd: Int32, reg: U32, size: U32, unset: U32, mask: U32, tries: nat) {
    forall i :: 0 <= i < tries ==> QuietRead(o, t + Rounds(fd, reg, size, i), fd, reg, size, unset, mask)
  }

  /** One more round in front of `i` rounds is `i + 1` rounds. */
  lemma RoundsStep(t: seq<Event>, n: seq<Event>, fd: Int32, reg: U32, size: U32, i: nat)
    requires n == t + PollRound(fd, reg, size)
    ensures n + Rounds(fd, reg, size, i) == t + Rounds(fd, reg, size, i + 1)
  {
  }

  /** A register that never reaches the condition within the loop's reads is read
      exactly `tries` times, with a 10 ms delay after each read, and the loop gives
      up with -1. */
  lemma {:induction false} WaitLoopTimesOut(s: St, o: Oracle, reg: U32, size: U32, unset: U32, mask: U32, tries: nat)
    requires NeverReached(o, s.trace, s.fd, reg, size, unset, mask, tries)
    ensures var r := WaitLoop(s, o, reg, size, unset, mask, tries);
            && r.val == -1
            && r.st.trace == s.trace + Rounds(s.fd, reg, size, tries)
            && Calls(r.st.trace) == Calls(s.trace) + Repeat(ReadHcrCall(s.fd, reg, size), tries)
            && |r.st.trace| == |s.trace| + 4 * tries
    decreases tries
  {
    if tries > 0 {
      var read := ReadHcrCall(s.fd, reg, size);
      assert s.trace + Rounds(s.fd, reg, size, 0) == s.trace;
      var n, stop := PollOnce(s, o, reg, size, unset, mask, tries);
      var r := WaitLoop(s, o, reg, size, unset, mask, tries);
      forall i | 0 <= i < tries - 1
        ensures QuietRead(o, n.trace + Rounds(s.fd, reg, size, i), s.fd, reg, size, unset, mask)
      {
        RoundsStep(s.trace, n.trace, s.fd, reg, size, i);
      }
      WaitLoopTimesOut(n, o, reg, size, unset, mask, tries - 1);
      RoundsStep(s.trace, n.trace, s.fd, reg, size, tries - 1);
      ReadsStep(Calls(s.trace), Calls(n.trace), Calls(r.st.trace), read, tries - 1);
    }
  }

  /** The first read decides when it fails (its status is returned) or shows the
      condition (0 is returned): one read, no delay. */
  lemma WaitLoopFirstRead(s: St, o: Oracle, reg: U32, size: U32, unset: U32, mask: U32, tries: nat)
    requires tries > 0
    ensures var read := ReadHcrCall(s.fd, reg, size);
            var ans := o(s.trace + [SyncAfterWrite(QueryBlock)], read);
            var r := WaitLoop(s, o, reg, size, unset, mask, tries);
            && (ans.ret < 0 ==> r.val == ans.ret && Calls(r.st.trace) == Calls(s.trace) + [read])
            && (ans.ret >= 0 && Reached(ans.word, unset, mask) ==>
                  r.val == 0 && Calls(r.st.trace) == Calls(s.trace) + [read])
  {
    GetHcrCall(s, o, reg, size);
  }

  /** `__sdio_setbuswidth` reads the Host Control register and, when the read fails,
      returns its status and writes nothing; otherwise it writes back the byte with
      the Data Transfer Width bit for `busWidth` and returns the write's status. No
      command reaches the card. */
  lemma SetHostBusWidthCalls(s: St, o: Oracle, busWidth: U32)
    ensures var read := ReadHcrCall(s.fd, HcrHostControl, 1);
            var ans := o(s.trace + [SyncAfterWrite(QueryBlock)], read);
            var write := WriteHcrCall(s.fd, HcrHostControl, 1, HostControl(ans.word, busWidth));
            var r := SetHostBusWidth(s, o, busWidth);
            && Commands(r.st.trace) == Commands(s.trace)
            && (ans.ret < 0 ==> r.val == ans.ret && Calls(r.st.trace) == Calls(s.trace) + [read])
            && (ans.ret >= 0 ==> Calls(r.st.trace) == Calls(s.trace) + [read, write])
            && (ans.ret >= 0 ==>
                  r.val == o(s.trace + [SyncAfterWrite(QueryBlock), read, SyncBeforeRead(RegisterValue),
                                        SyncAfterWrite(QueryBlock)], write).ret)
  {
    var g := GetHcr(s, o, HcrHostControl, 1);
    GetHcrCall(s, o, HcrHostControl, 1);
    assert g.st.trace + [SyncAfterWrite(QueryBlock)] ==
           s.trace + [SyncAfterWrite(QueryBlock), ReadHcrCall(s.fd, HcrHostControl, 1), SyncBeforeRead(RegisterValue),
                      SyncAfterWrite(QueryBlock)];
    if g.val.ret >= 0 {
      SetHcrCall(g.st, o, HcrHostControl, 1, HostControl(g.val.val, busWidth));
    }
  }

  // ---------------------------------------------------------------------------
  // Card commands

  /** A command without data and without a reply: two events (flush, call), one
      call that carries exactly the command, and the call's status returned. */
  lemma BareCommand(s: St, o: Oracle, cmd: U32, rspType: U32, arg: U32)
    ensures var req := MakeRequest(cmd, CmdTypeAc, rspType, arg, 0, 0, 0);
            var call := CommandCall(s, req, 0);
            var r := SendCommand(s, o, cmd, CmdTypeAc, rspType, arg, 0, 0, 0, false, 0);
            && r.st.trace == s.trace + [SyncAfterWrite(RequestBlock), call]
            && Calls(r.st.trace) == Calls(s.trace) + [call]
            && Commands(r.st.trace) == Commands(s.trace) + [req]
            && r.val.ret == o(s.trace + [SyncAfterWrite(RequestBlock)], call).ret
            && r.val.reply == None
  {
    SendCommandTrace(s, o, cmd, CmdTypeAc, rspType, arg, 0, 0, 0, false, 0);
    SendCommandCalls(s, o, cmd, CmdTypeAc, rspType, arg, 0, 0, 0, false, 0);
    assert FlushesBefore(cmd, 0, 0) == [SyncAfterWrite(RequestBlock)];
  }

  /** `__sd0_select` sends CMD7 with the card's address in the upper half of the
      argument, and returns its status. */
  lemma SelectSends(s: St, o: Oracle)
    ensures var call := CommandCall(s, SelectRequest(s.rca), 0);
            var r := Select(s, o);
            && CardAddress(SelectRequest(s.rca).arg) == s.rca
            && Calls(r.st.trace) == Calls(s.trace) + [call]
            && Commands(r.st.trace) == Commands(s.trace) + [SelectRequest(s.rca)]
            && r.val == o(s.trace + [SyncAfterWrite(RequestBlock)], call).ret
  {
    BareCommand(s, o, CmdSelect, ResponseR1b, AddressArgument(s.rca));
  }

  /** `__sd0_deselect` sends CMD7 with address 0, and returns its status. */
  lemma DeselectSends(s: St, o: Oracle)
    ensures var call := CommandCall(s, DeselectRequest(), 0);
            var r := Deselect(s, o);
            && DeselectRequest().arg == 0
            && Calls(r.st.trace) == Calls(s.trace) + [call]
            && Commands(r.st.trace) == Commands(s.trace) + [DeselectRequest()]
            && r.val == o(s.trace + [SyncAfterWrite(RequestBlock)], call).ret
  {
    BareCommand(s, o, CmdDeselect, ResponseR1b, 0);
  }

  /** `__sd0_setblocklength` sends CMD16 with the length, and returns its status. */
  lemma SetBlockLengthSends(s: St, o: Oracle, len: U32)
    ensures var call := CommandCall(s, BlockLengthRequest(len), 0);
            var r := SetBlockLength(s, o, len);
            && Calls(r.st.trace) == Calls(s.trace) + [call]
            && Commands(r.st.trace) == Commands(s.trace) + [BlockLengthRequest(len)]
            && r.val == o(s.trace + [SyncAfterWrite(RequestBlock)], call).ret
  {
    BareCommand(s, o, CmdSetBlockLen, ResponseR1, len);
  }

  /** `__sd0_setbuswidth` sends CMD55 for the card's address; only if that succeeds
      does it send ACMD6, whose argument is 2 exactly for a 4-bit bus. */
  lemma SetCardBusWidthSends(s: St, o: Oracle, busWidth: U32)
    ensures var app := CommandCall(s, AppCmdRequest(s.rca), 0);
            var first := o(s.trace + [SyncAfterWrite(RequestBlock)], app).ret;
            var r := SetCardBusWidth(s, o, busWidth);
            && (BusWidthRequest(busWidth).arg == 2 <==> busWidth == 4)
            && (first < 0 ==> Commands(r.st.trace) == Commands(s.trace) + [AppCmdRequest(s.rca)])
            && (first >= 0 ==>
                  Commands(r.st.trace) == Commands(s.trace) + [AppCmdRequest(s.rca), BusWidthRequest(busWidth)])
  {
    var a := SendCommand(s, o, CmdAppCmd, CmdTypeAc, ResponseR1, AddressArgument(s.rca), 0, 0, 0, false, 0);
    BareCommand(s, o, CmdAppCmd, ResponseR1, AddressArgument(s.rca));
    if a.val.ret >= 0 {
      BareCommand(a.st, o, AcmdSetBusWidth, ResponseR1, BusWidthCode(busWidth));
      assert Commands(s.trace) + [AppCmdRequest(s.rca)] + [BusWidthRequest(busWidth)]
          == Commands(s.trace) + [AppCmdRequest(s.rca), BusWidthRequest(busWidth)];
    }
  }

  /** The calls of `__sd0_setbuswidth`: CMD55 alone, whose failure is the result,
      or CMD55 and ACMD6, and then ACMD6's status is the result. */
  lemma SetCardBusWidthCalls(s: St, o: Oracle, busWidth: U32)
    ensures var app := CommandCall(s, AppCmdRequest(s.rca), 0);
            var acmd := CommandCall(s, BusWidthRequest(busWidth), 0);
            var first := o(s.trace + [SyncAfterWrite(RequestBlock)], app).ret;
            var r := SetCardBusWidth(s, o, busWidth);
            && (first < 0 ==> r.val == first && Calls(r.st.trace) == Calls(s.trace) + [app])
            && (first >= 0 ==>
                  && r.val == o(s.trace + [SyncAfterWrite(RequestBlock), app, SyncAfterWrite(RequestBlock)], acmd).ret
                  && Calls(r.st.trace) == Calls(s.trace) + [app, acmd])
  {
    var a := SendCommand(s, o, CmdAppCmd, CmdTypeAc, ResponseR1, AddressArgument(s.rca), 0, 0, 0, false, 0);
    BareCommand(s, o, CmdAppCmd, ResponseR1, AddressArgument(s.rca));
    if a.val.ret >= 0 {
      AfterAppCmd(s, o, busWidth);
    }
  }

  /** Once CMD55 has succeeded, ACMD6 follows it as the next call. */
  lemma AfterAppCmd(s: St, o: Oracle, busWidth: U32)
    requires o(s.trace + [SyncAfterWrite(RequestBlock)], CommandCall(s, AppCmdRequest(s.rca), 0)).ret >= 0
    ensures var app := CommandCall(s, AppCmdRequest(s.rca), 0);
            var acmd := CommandCall(s, BusWidthRequest(busWidth), 0);
            var r := SetCardBusWidth(s, o, busWidth);
            && r.val == o(s.trace + [SyncAfterWrite(RequestBlock), app, SyncAfterWrite(RequestBlock)], acmd).ret
            && Calls(r.st.trace) == Calls(s.trace) + [app, acmd]
  {
    var app := CommandCall(s, AppCmdRequest(s.rca), 0);
    var acmd := CommandCall(s, BusWidthRequest(busWidth), 0);
    var a := SendCommand(s, o, CmdAppCmd, CmdTypeAc, ResponseR1, AddressArgument(s.rca), 0, 0, 0, false, 0);
    BareCommand(s, o, CmdAppCmd, ResponseR1, AddressArgument(s.rca));
    var c := SendCommand(a.st, o, AcmdSetBusWidth, CmdTypeAc, ResponseR1, BusWidthCode(busWidth), 0, 0, 0, false, 0);
    BareCommand(a.st, o, AcmdSetBusWidth, ResponseR1, BusWidthCode(busWidth));
    assert CommandCall(a.st, BusWidthRequest(busWidth), 0) == acmd;
    assert a.st.trace + [SyncAfterWrite(RequestBlock)] ==
           s.trace + [SyncAfterWrite(RequestBlock), app, SyncAfterWrite(RequestBlock)];
    Extended2(Calls(s.trace), Calls(a.st.trace), Calls(c.st.trace), app, acmd);
  }

  // ---------------------------------------------------------------------------
  // Transfers

  /** A misaligned buffer switches the slot LED on and fails; a null buffer fails.
      Neither calls the service or changes a variable. */
  lemma TransferRejects(s: St, o: Oracle, cmd: U32, sector: U32, numSectors: U32, buffer: Addr)
    requires Misaligned(buffer) || buffer == 0
    ensures var r := Transfer(s, o, cmd, sector, numSectors, buffer);
            && !r.val && SameVars(s, r.st)
            && Calls(r.st.trace) == Calls(s.trace) && Commands(r.st.trace) == Commands(s.trace)
            && (Misaligned(buffer) <==> r.st.trace == s.trace + [GpioOn(Oslot)])
  {
    CallsSnoc(s.trace, GpioOn(Oslot));
    CommandsSnoc(s.trace, GpioOn(Oslot));
    if !Misaligned(buffer) {
      assert |s.trace + [GpioOn(Oslot)]| != |s.trace|;
    }
  }

  /** For an aligned buffer a transfer first selects the card; if that fails,
      nothing else is sent and the transfer fails. */
  lemma TransferSelectFails(s: St, o: Oracle, cmd: U32, sector: U32, numSectors: U32, buffer: Addr)
    requires !Misaligned(buffer) && buffer != 0
    requires o(s.trace + [SyncAfterWrite(RequestBlock)], CommandCall(s, SelectRequest(s.rca), 0)).ret < 0
    ensures var r := Transfer(s, o, cmd, sector, numSectors, buffer);
            && !r.val && SameVars(s, r.st)
            && Calls(r.st.trace) == Calls(s.trace) + [CommandCall(s, SelectRequest(s.rca), 0)]
            && Commands(r.st.trace) == Commands(s.trace) + [SelectRequest(s.rca)]
  {
    SelectSends(s, o);
  }

  /** Where a transfer's data command starts: the card selected, nothing else
      changed. */
  lemma TransferSelected(s: St, o: Oracle, cmd: U32, sector: U32, numSectors: U32, buffer: Addr)
    returns (m: St, c: Out<CmdResult>)
    requires !Misaligned(buffer) && buffer != 0
    requires o(s.trace + [SyncAfterWrite(RequestBlock)], CommandCall(s, SelectRequest(s.rca), 0)).ret >= 0
    ensures SameVars(s, m) && m.trace == s.trace + [SyncAfterWrite(RequestBlock), CommandCall(s, SelectRequest(s.rca), 0)]
    ensures Calls(m.trace) == Calls(s.trace) + [CommandCall(s, SelectRequest(s.rca), 0)]
    ensures Commands(m.trace) == Commands(s.trace) + [SelectRequest(s.rca)]
    ensures c == SendCommand(m, o, cmd, CmdTypeAc, ResponseR1, SectorArgument(sector, s.sdhc), numSectors, PageSize512, buffer, false, 0)
    ensures Transfer(s, o, cmd, sector, numSectors, buffer) == Out(Deselect(c.st, o).st, c.val.ret >= 0)
  {
    var sel := Select(s, o);
    SelectSends(s, o);
    BareCommand(s, o, CmdSelect, ResponseR1b, AddressArgument(s.rca));
    SendCommandTrace(s, o, CmdSelect, CmdTypeAc, ResponseR1b, AddressArgument(s.rca), 0, 0, 0, false, 0);
    m := sel.st;
    c := SendCommand(m, o, cmd, CmdTypeAc, ResponseR1, SectorArgument(sector, s.sdhc), numSectors, PageSize512, buffer, false, 0);
  }

  /** After a successful select a transfer sends the data command, a DMA transfer
      of `numSectors` blocks of 512 bytes at the sector's byte address (standard
      capacity) or block number (SDHC), then deselects the card whatever the data
      command did. No variable changes. */
  lemma TransferSends(s: St, o: Oracle, cmd: U32, sector: U32, numSectors: U32, buffer: Addr)
    requires !Misaligned(buffer) && buffer != 0
    requires o(s.trace + [SyncAfterWrite(RequestBlock)], CommandCall(s, SelectRequest(s.rca), 0)).ret >= 0
    ensures var req := DataRequest(cmd, SectorArgument(sector, s.sdhc), numSectors, buffer);
            var data := CommandCall(s, req, Wrap(PageSize512 * numSectors));
            var r := Transfer(s, o, cmd, sector, numSectors, buffer);
            && SameVars(s, r.st)
            && req.isDma == 1 && data.Ioctlv?
            && Calls(r.st.trace) == Calls(s.trace) +
                 [CommandCall(s, SelectRequest(s.rca), 0), data, CommandCall(s, DeselectRequest(), 0)]
            && Commands(r.st.trace) == Commands(s.trace) + [SelectRequest(s.rca), req, DeselectRequest()]
  {
    var m, c := TransferSelected(s, o, cmd, sector, numSectors, buffer);
    var arg := SectorArgument(sector, s.sdhc);
    var req := DataRequest(cmd, arg, numSectors, buffer);
    SendCommandCalls(m, o, cmd, CmdTypeAc, ResponseR1, arg, numSectors, PageSize512, buffer, false, 0);
    var d := Deselect(c.st, o);
    DeselectSends(c.st, o);
    Extended3(Calls(s.trace), Calls(m.trace), Calls(c.st.trace), Calls(d.st.trace),
          CommandCall(s, SelectRequest(s.rca), 0), CommandCall(m, req, Wrap(PageSize512 * numSectors)),
          CommandCall(c.st, DeselectRequest(), 0));
    Extended3(Commands(s.trace), Commands(m.trace), Commands(c.st.trace), Commands(d.st.trace),
          SelectRequest(s.rca), req, DeselectRequest());
  }

  /** After a successful select a transfer succeeds exactly when the data command's
      call did. */
  lemma TransferResult(s: St, o: Oracle, cmd: U32, sector: U32, numSectors: U32, buffer: Addr)
    requires !Misaligned(buffer) && buffer != 0
    requires o(s.trace + [SyncAfterWrite(RequestBlock)], CommandCall(s, SelectRequest(s.rca), 0)).ret >= 0
    ensures var len := Wrap(PageSize512 * numSectors);
            var m := s.trace + [SyncAfterWrite(RequestBlock), CommandCall(s, SelectRequest(s.rca), 0)];
            var data := CommandCall(s, DataRequest(cmd, SectorArgument(sector, s.sdhc), numSectors, buffer), len);
            Transfer(s, o, cmd, sector, numSectors, buffer).val <==> o(m + FlushesBefore(cmd, buffer, len), data).ret >= 0
  {
    var m, c := TransferSelected(s, o, cmd, sector, numSectors, buffer);
    SendCommandTrace(m, o, cmd, CmdTypeAc, ResponseR1, SectorArgument(sector, s.sdhc), numSectors, PageSize512, buffer, false, 0);
  }

  // ---------------------------------------------------------------------------
  // Bring-up

  /** The commands a bring-up of the card at `rca` sends when every step succeeds. */
  function BringUpCommands(rca: U16): seq<Request> {
    [SelectRequest(rca), BlockLengthRequest(PageSize512), AppCmdRequest(rca), BusWidthRequest(4), DeselectRequest()]
  }

  /** The status CMD55 returns when `__sd0_setbuswidth` starts in state `s`. */
  function AppCmdStatus(s: St, o: Oracle): Int32 {
    o(s.trace + [SyncAfterWrite(RequestBlock)], CommandCall(s, AppCmdRequest(s.rca), 0)).ret
  }

  /** The command sequences a bring-up can send: none, the select alone, or, once
      the card is selected, a run of the card steps followed by a deselect. Which
      one is sent depends on the steps' statuses; the lemmas below tie each one to them. */
  predicate BringUpPrefix(rca: U16, cs: seq<Request>) {
    var sel, bl, app, bw, desel :=
      SelectRequest(rca), BlockLengthRequest(PageSize512), AppCmdRequest(rca), BusWidthRequest(4), DeselectRequest();
    cs == [] || cs == [sel] || cs == [sel, bl, desel] || cs == [sel, bl, app, desel] || cs == [sel, bl, app, bw, desel]
  }

  /** The card steps of a bring-up after a successful select: block length 512,
      then the card's bus width only if CMD16 succeeded (and ACMD6 only if CMD55
      did), and one deselect in every case; success exactly when both steps
      returned a non-negative status. */
  lemma SelectedSteps(c: St, o: Oracle) returns (cs: seq<Request>, ok: bool, e: St)
    requires Select(c, o).val >= 0
    ensures SameVars(c, e)
    ensures BringUpPrefix(c.rca, cs) && (ok ==> cs == BringUpCommands(c.rca))
    ensures |cs| >= 3 && cs[0] == SelectRequest(c.rca) && cs[|cs| - 1] == DeselectRequest()
    ensures Commands(e.trace) == Commands(c.trace) + cs
    ensures ConfigureCard(c, o) == Out(if ok then e.(sd0Initialized := 1) else e, ok)
    ensures var sel, blr, app, desel :=
              SelectRequest(c.rca), BlockLengthRequest(PageSize512), AppCmdRequest(c.rca), DeselectRequest();
            var bl := SetBlockLength(Select(c, o).st, o, PageSize512);
            && (cs == [sel, blr, desel] <==> bl.val < 0)
            && (cs == [sel, blr, app, desel] <==> bl.val >= 0 && AppCmdStatus(bl.st, o) < 0)
            && (cs == BringUpCommands(c.rca) <==> bl.val >= 0 && AppCmdStatus(bl.st, o) >= 0)
            && (ok <==> bl.val >= 0 && SetCardBusWidth(bl.st, o, 4).val >= 0)
  {
    var sel, blr, app, bwr, desel :=
      SelectRequest(c.rca), BlockLengthRequest(PageSize512), AppCmdRequest(c.rca), BusWidthRequest(4), DeselectRequest();
    var se := Select(c, o);
    SelectSends(c, o);
    var bl := SetBlockLength(se.st, o, PageSize512);
    SetBlockLengthSends(se.st, o, PageSize512);
    if bl.val < 0 {
      var d := Deselect(bl.st, o);
      DeselectSends(bl.st, o);
      cs, ok, e := [sel, blr, desel], false, d.st;
      Extended3(Commands(c.trace), Commands(se.st.trace), Commands(bl.st.trace), Commands(d.st.trace), sel, blr, desel);
      return;
    }
    var bw := SetCardBusWidth(bl.st, o, 4);
    SetCardBusWidthSends(bl.st, o, 4);
    var d := Deselect(bw.st, o);
    DeselectSends(bw.st, o);
    e, ok := d.st, bw.val >= 0;
    SetCardBusWidthCalls(bl.st, o, 4);
    if AppCmdStatus(bl.st, o) < 0 {
      cs := [sel, blr, app, desel];
      Extended4(Commands(c.trace), Commands(se.st.trace), Commands(bl.st.trace), Commands(bw.st.trace), Commands(d.st.trace),
                sel, blr, app, desel);
    } else {
      cs := [sel, blr, app, bwr, desel];
      Extended5(Commands(c.trace), Commands(se.st.trace), Commands(bl.st.trace), Commands(bw.st.trace), Commands(d.st.trace),
                sel, blr, app, bwr, desel);
    }
  }

  /** The card steps of a bring-up: the select alone if it fails; otherwise the
      steps of SelectedSteps, ending in a deselect. Success means every command
      was sent, and sets `__sd0_initialized`; no other variable changes. */
  lemma ConfigureCardSends(c: St, o: Oracle) returns (cs: seq<Request>)
    ensures var r := ConfigureCard(c, o);
            && Commands(r.st.trace) == Commands(c.trace) + cs
            && BringUpPrefix(c.rca, cs) && cs != []
            && (cs == [SelectRequest(c.rca)] <==> Select(c, o).val < 0)
            && (|cs| > 1 ==> cs[|cs| - 1] == DeselectRequest())
            && (r.val ==> cs == BringUpCommands(c.rca))
            && r.st.fd == c.fd && r.st.rca == c.rca && r.st.sdhc == c.sdhc
            && r.st.sdioInitialized == c.sdioInitialized
            && r.st.sd0Initialized == (if r.val then 1 else c.sd0Initialized)
    ensures var sel, blr, app, desel :=
              SelectRequest(c.rca), BlockLengthRequest(PageSize512), AppCmdRequest(c.rca), DeselectRequest();
            var se := Select(c, o);
            var bl := SetBlockLength(se.st, o, PageSize512);
            && (cs == [sel, blr, desel] <==> se.val >= 0 && bl.val < 0)
            && (cs == [sel, blr, app, desel] <==> se.val >= 0 && bl.val >= 0 && AppCmdStatus(bl.st, o) < 0)
            && (cs == BringUpCommands(c.rca) <==> se.val >= 0 && bl.val >= 0 && AppCmdStatus(bl.st, o) >= 0)
  {
    var se := Select(c, o);
    SelectSends(c, o);
    if se.val < 0 {
      return [SelectRequest(c.rca)];
    }
    var ok, e;
    cs, ok, e := SelectedSteps(c, o);
  }

  /** The bring-up of an initialized card: whatever happens, it sends one of the
      command sequences of BringUpPrefix: nothing when a host-side step fails, the
      select alone when the select fails, and otherwise a sequence that ends in
      the deselect. It succeeds only after sending all of them, and then sets
      `__sd0_initialized`. It changes no other variable. */
  lemma BringUpSends(s: St, o: Oracle) returns (cs: seq<Request>)
    ensures var r := BringUp(s, o);
            && Commands(r.st.trace) == Commands(s.trace) + cs
            && BringUpPrefix(s.rca, cs)
            && (r.val ==> cs == BringUpCommands(s.rca))
            && r.st.fd == s.fd && r.st.rca == s.rca && r.st.sdhc == s.sdhc
            && r.st.sdioInitialized == s.sdioInitialized
            && r.st.sd0Initialized == (if r.val then 1 else s.sd0Initialized)
    ensures var b := SetHostBusWidth(s, o, 4);
            var c := SetClock(b.st, o, 1);
            var se := Select(c.st, o);
            && (cs == [] <==> b.val < 0 || c.val < 0)
            && (cs == [SelectRequest(s.rca)] <==> b.val >= 0 && c.val >= 0 && se.val < 0)
            && (|cs| > 1 <==> b.val >= 0 && c.val >= 0 && se.val >= 0)
            && (|cs| > 1 ==> cs[|cs| - 1] == DeselectRequest())
    ensures var sel, blr, app, desel :=
              SelectRequest(s.rca), BlockLengthRequest(PageSize512), AppCmdRequest(s.rca), DeselectRequest();
            var c := SetClock(SetHostBusWidth(s, o, 4).st, o, 1);
            var se := Select(c.st, o);
            var bl := SetBlockLength(se.st, o, PageSize512);
            var hostUp := SetHostBusWidth(s, o, 4).val >= 0 && c.val >= 0;
            && (cs == [sel, blr, desel] <==> hostUp && se.val >= 0 && bl.val < 0)
            && (cs == [sel, blr, app, desel] <==> hostUp && se.val >= 0 && bl.val >= 0 && AppCmdStatus(bl.st, o) < 0)
            && (cs == BringUpCommands(s.rca) <==> hostUp && se.val >= 0 && bl.val >= 0 && AppCmdStatus(bl.st, o) >= 0)
  {
    var b := SetHostBusWidth(s, o, 4);
    SetHostBusWidthCalls(s, o, 4);
    if b.val < 0 {
      return [];
    }
    var c := SetClock(b.st, o, 1);
    SetClockCall(b.st, o, 1);
    if c.val < 0 {
      return [];
    }
    cs := ConfigureCardSends(c.st, o);
  }

  /** The bring-up succeeds exactly when each of its five steps does: host bus
      width 4, clock on, select, block length 512 and card bus width 4. A failed
      host-side step ends it at once. */
  lemma BringUpSucceeds(s: St, o: Oracle)
    ensures var b := SetHostBusWidth(s, o, 4);
            var c := SetClock(b.st, o, 1);
            var se := Select(c.st, o);
            var bl := SetBlockLength(se.st, o, PageSize512);
            var bw := SetCardBusWidth(bl.st, o, 4);
            && (BringUp(s, o).val <==> b.val >= 0 && c.val >= 0 && se.val >= 0 && bl.val >= 0 && bw.val >= 0)
            && (b.val < 0 ==> BringUp(s, o) == Out(b.st, false))
            && (b.val >= 0 && c.val < 0 ==> BringUp(s, o) == Out(c.st, false))
  {
  }

  /** The calls of a successful bring-up: the Host Control register read and
      written back with the 4-bit bus width, the clock switched on, and then the
      five card commands. */
  lemma BringUpCalls(s: St, o: Oracle)
    requires BringUp(s, o).val
    ensures var read := ReadHcrCall(s.fd, HcrHostControl, 1);
            var ans := o(s.trace + [SyncAfterWrite(QueryBlock)], read);
            Calls(BringUp(s, o).st.trace) == Calls(s.trace) +
              [read, WriteHcrCall(s.fd, HcrHostControl, 1, HostControl(ans.word, 4)), Ioctl(s.fd, IoctlSetClk, Word(1), 0),
               CommandCall(s, SelectRequest(s.rca), 0), CommandCall(s, BlockLengthRequest(PageSize512), 0),
               CommandCall(s, AppCmdRequest(s.rca), 0), CommandCall(s, BusWidthRequest(4), 0),
               CommandCall(s, DeselectRequest(), 0)]
  {
    var read := ReadHcrCall(s.fd, HcrHostControl, 1);
    var ans := o(s.trace + [SyncAfterWrite(QueryBlock)], read);
    var host := [read, WriteHcrCall(s.fd, HcrHostControl, 1, HostControl(ans.word, 4)), Ioctl(s.fd, IoctlSetClk, Word(1), 0)];
    var c := HostSteps(s, o);
    var card := CardSteps(c, o);
    assert CommandCall(c, SelectRequest(c.rca), 0) == CommandCall(s, SelectRequest(s.rca), 0);
    assert CommandCall(c, BlockLengthRequest(PageSize512), 0) == CommandCall(s, BlockLengthRequest(PageSize512), 0);
    assert CommandCall(c, AppCmdRequest(c.rca), 0) == CommandCall(s, AppCmdRequest(s.rca), 0);
    assert CommandCall(c, BusWidthRequest(4), 0) == CommandCall(s, BusWidthRequest(4), 0);
    assert CommandCall(c, DeselectRequest(), 0) == CommandCall(s, DeselectRequest(), 0);
    assert host + card == [host[0], host[1], host[2], card[0], card[1], card[2], card[3], card[4]];
  }

  /** The host-side steps of a successful bring-up: read and write of the Host
      Control register, then the clock; the state reached is where the select starts. */
  lemma HostSteps(s: St, o: Oracle) returns (c: St)
    requires BringUp(s, o).val
    ensures var read := ReadHcrCall(s.fd, HcrHostControl, 1);
            var ans := o(s.trace + [SyncAfterWrite(QueryBlock)], read);
            && SameVars(s, c)
            && c == SetClock(SetHostBusWidth(s, o, 4).st, o, 1).st
            && Calls(c.trace) == Calls(s.trace) +
                 [read, WriteHcrCall(s.fd, HcrHostControl, 1, HostControl(ans.word, 4)), Ioctl(s.fd, IoctlSetClk, Word(1), 0)]
  {
    BringUpSucceeds(s, o);
    var b := SetHostBusWidth(s, o, 4);
    SetHostBusWidthCalls(s, o, 4);
    SetClockCall(b.st, o, 1);
    c :=SetClock(b.st, o, 1).st;
    var read := ReadHcrCall(s.fd, HcrHostControl, 1);
    var ans := o(s.trace + [SyncAfterWrite(QueryBlock)], read);
    Extended3(Calls(s.trace), Calls(s.trace) + [read], Calls(b.st.trace), Calls(c.trace),
              read, WriteHcrCall(s.fd, HcrHostControl, 1, HostControl(ans.word, 4)), Ioctl(s.fd, IoctlSetClk, Word(1), 0));
  }

  /** The card commands of a successful bring-up, from the clock on, as calls. */
  lemma CardSteps(c: St, o: Oracle) returns (card: seq<Event>)
    requires Select(c, o).val >= 0
    requires var bl := SetBlockLength(Select(c, o).st, o, PageSize512);
             bl.val >= 0 && SetCardBusWidth(bl.st, o, 4).val >= 0
    ensures card == [CommandCall(c, SelectRequest(c.rca), 0), CommandCall(c, BlockLengthRequest(PageSize512), 0),
                     CommandCall(c, AppCmdRequest(c.rca), 0), CommandCall(c, BusWidthRequest(4), 0),
                     CommandCall(c, DeselectRequest(), 0)]
    ensures var bl := SetBlockLength(Select(c, o).st, o, PageSize512);
            var bw := SetCardBusWidth(bl.st, o, 4);
            Calls(Deselect(bw.st, o).st.trace) == Calls(c.trace) + card
  {
    var se := Select(c, o);
    SelectSends(c, o);
    var bl := SetBlockLength(se.st, o, PageSize512);
    SetBlockLengthSends(se.st, o, PageSize512);
    var bw := SetCardBusWidth(bl.st, o, 4);
    SetCardBusWidthCalls(bl.st, o, 4);
    var d := Deselect(bw.st, o);
    DeselectSends(bw.st, o);
    card := [CommandCall(c, SelectRequest(c.rca), 0), CommandCall(c, BlockLengthRequest(PageSize512), 0),
             CommandCall(c, AppCmdRequest(c.rca), 0), CommandCall(c, BusWidthRequest(4), 0),
             CommandCall(c, DeselectRequest(), 0)];
    assert CommandCall(se.st, BlockLengthRequest(PageSize512), 0) == card[1];
    assert CommandCall(bl.st, AppCmdRequest(bl.st.rca), 0) == card[2];
    assert CommandCall(bl.st, BusWidthRequest(4), 0) == card[3];
    assert CommandCall(bw.st, DeselectRequest(), 0) == card[4];
    Extended5(Calls(c.trace), Calls(se.st.trace), Calls(bl.st.trace), Calls(bw.st.trace), Calls(d.st.trace),
              card[0], card[1], card[2], card[3], card[4]);
  }

  /** The reply to the reset call that opens `__sd0_initio`. */
  function ResetReply(s: St, o: Oracle): Reply {
    o(s.trace + [SyncAfterWrite(StatusWord)], Ioctl(s.fd, IoctlResetCard, NoInput, 4))
  }

  /** The reply to the status query that follows it. */
  function StatusReply(s: St, o: Oracle): Reply {
    o(s.trace + [SyncAfterWrite(StatusWord), Ioctl(s.fd, IoctlResetCard, NoInput, 4), SyncAfterWrite(StatusWord)],
      Ioctl(s.fd, IoctlGetStatus, NoInput, 4))
  }

  /** The reset and status query that open `__sd0_initio`: two calls, no command.
      The card address comes from the reset (0 if it failed), and the status word
      is the query's word, or the bits of its error code if it failed. */
  lemma ResetAndStatusCalls(s: St, o: Oracle)
    ensures var g := ResetAndStatus(s, o);
            && Calls(g.st.trace) == Calls(s.trace) + [Ioctl(s.fd, IoctlResetCard, NoInput, 4), Ioctl(s.fd, IoctlGetStatus, NoInput, 4)]
            && Commands(g.st.trace) == Commands(s.trace)
            && g.st.rca == (if ResetReply(s, o).ret < 0 then 0 else CardAddress(ResetReply(s, o).word))
            && g.val == (if StatusReply(s, o).ret < 0 then ToU32(StatusReply(s, o).ret) else StatusReply(s, o).word)
            && g.st.fd == s.fd && g.st.sd0Initialized == s.sd0Initialized && g.st.sdhc == s.sdhc
            && g.st.sdioInitialized == s.sdioInitialized
  {
    var rc := ResetCard(s, o);
    ResetCardCall(s, o);
    assert rc.st.trace == s.trace + [SyncAfterWrite(StatusWord), Ioctl(s.fd, IoctlResetCard, NoInput, 4)];
    if ResetReply(s, o).ret >= 0 {
      ResetWordSplit(ResetReply(s, o).word);
    }
    assert rc.st.trace + [SyncAfterWrite(StatusWord)] ==
           s.trace + [SyncAfterWrite(StatusWord), Ioctl(s.fd, IoctlResetCard, NoInput, 4), SyncAfterWrite(StatusWord)];
    var gs := GetStatus(rc.st, o);
    GetStatusCall(rc.st, o);
    Extended2(Calls(s.trace), Calls(rc.st.trace), Calls(gs.st.trace),
        Ioctl(s.fd, IoctlResetCard, NoInput, 4), Ioctl(s.fd, IoctlGetStatus, NoInput, 4));
  }

  /** A failed status query whose error code is -1 reads as a status word with every
      bit set: card inserted, initialized and high capacity. `__sd0_initio` then
      goes on to bring the card up as an SDHC card. */
  lemma StatusFailureLooksReady(s: St, o: Oracle)
    requires StatusReply(s, o).ret == -1
    ensures var g := ResetAndStatus(s, o);
            && g.val == 0xFFFF_FFFF
            && HasBit(g.val, StatusCardInserted) && HasBit(g.val, StatusCardInitialized) && HasBit(g.val, StatusCardSdhc)
            && InitIo(s, o) == BringUp(g.st.(sdhc := 1), o)
  {
    ResetAndStatusCalls(s, o);
  }

  /** The branch for a card the controller has not initialized: the software reset
      write, between one and ten reads of the reset register, closing the handle and
      opening the device again (mode 1); the new handle is what the open returned.
      It sends no command, reports failure and changes no other variable. */
  lemma ResetControllerCalls(s: St, o: Oracle) returns (k: nat)
    ensures 1 <= k <= 10
    ensures var r := ResetController(s, o);
            && !r.val
            && Calls(r.st.trace) == Calls(s.trace) + [WriteHcrCall(s.fd, HcrSoftwareReset, 1, 7)] +
                 Repeat(ReadHcrCall(s.fd, HcrSoftwareReset, 1), k) + [Close(s.fd), Open(Sd0Path, 1)]
            && Commands(r.st.trace) == Commands(s.trace)
            && |r.st.trace| > 0 && r.st.fd == o(r.st.trace[..|r.st.trace| - 1], Open(Sd0Path, 1)).ret
            && r.st.rca == s.rca && r.st.sd0Initialized == s.sd0Initialized && r.st.sdhc == s.sdhc
            && r.st.sdioInitialized == s.sdioInitialized
  {
    var w := SetHcr(s, o, HcrSoftwareReset, 1, 7);
    SetHcrCall(s, o, HcrSoftwareReset, 1, 7);
    var t := WaitHcr(w.st, o, HcrSoftwareReset, 1, 1, 7);
    k := WaitLoopReads(w.st, o, HcrSoftwareReset, 1, 1, 7, 10);
    WaitLoopSendsNoCommand(w.st, o, HcrSoftwareReset, 1, 1, 7, 10);
    var c := Ask(t.st, o, Close(t.st.fd));
    CallsSnoc(t.st.trace, Close(s.fd));
    CommandsSnoc(t.st.trace, Close(s.fd));
    var op := Ask(c.st, o, Open(Sd0Path, 1));
    CallsSnoc(c.st.trace, Open(Sd0Path, 1));
    CommandsSnoc(c.st.trace, Open(Sd0Path, 1));
    assert op.st.trace[..|op.st.trace| - 1] == c.st.trace;
    var polls := Repeat(ReadHcrCall(s.fd, HcrSoftwareReset, 1), k);
    assert Calls(op.st.trace) == Calls(s.trace) + [WriteHcrCall(s.fd, HcrSoftwareReset, 1, 7)] + polls + [Close(s.fd)] + [Open(Sd0Path, 1)];
  }

  /** `__sd0_initio`: it succeeds only for a status word that says the card is
      inserted and initialized, and then it has sent the whole bring-up for the card
      address the reset produced, set `__sd0_sdhc` from the status word and
      `__sd0_initialized` to 1, and kept the handle. A failure leaves
      `__sd0_initialized` as it was; without a card nothing follows the status query.
      `__sd0_sdhc` is set from the status word exactly when the card is inserted
      and initialized, whatever the bring-up then does. `__sdio_initialized` is
      never touched. */
  lemma InitIoOutcome(s: St, o: Oracle)
    ensures var g := ResetAndStatus(s, o);
            var r := InitIo(s, o);
            && r.st.sdioInitialized == s.sdioInitialized
            && (r.val ==> && HasBit(g.val, StatusCardInserted) && HasBit(g.val, StatusCardInitialized)
                          && r.st.sd0Initialized == 1 && r.st.fd == s.fd
                          && r.st.sdhc == (if HasBit(g.val, StatusCardSdhc) then 1 else 0)
                          && Commands(r.st.trace) == Commands(s.trace) + BringUpCommands(g.st.rca))
            && (!r.val ==> r.st.sd0Initialized == s.sd0Initialized)
            && (!HasBit(g.val, StatusCardInserted) ==> r.st == g.st)
            && (Valid(s) ==> Valid(r.st))
    ensures var g := ResetAndStatus(s, o);
            var r := InitIo(s, o);
            var ready := HasBit(g.val, StatusCardInserted) && HasBit(g.val, StatusCardInitialized);
            var sdhc := if HasBit(g.val, StatusCardSdhc) then 1 else 0;
            && r.st.sdhc == (if ready then sdhc else s.sdhc)
            && (ready ==> r == BringUp(g.st.(sdhc := sdhc), o))
            && (HasBit(g.val, StatusCardInserted) && !HasBit(g.val, StatusCardInitialized) ==>
                  r == ResetController(g.st, o))
  {
    var g := ResetAndStatus(s, o);
    ResetAndStatusCalls(s, o);
    if !HasBit(g.val, StatusCardInserted) {
      return;
    }
    if HasBit(g.val, StatusCardInitialized) {
      var h := g.st.(sdhc := if HasBit(g.val, StatusCardSdhc) then 1 else 0);
      var cs := BringUpSends(h, o);
      assert Commands(h.trace) == Commands(s.trace);
    } else {
      var k := ResetControllerCalls(g.st, o);
    }
  }

  // ---------------------------------------------------------------------------
  // Lifecycle

  /** `sdio_Deinitialize` closes the handle if it is open, clears
      `__sdio_initialized` and reports success; it leaves `__sd0_fd` holding the
      closed handle. */
  lemma DeinitializeCalls(s: St, o: Oracle)
    ensures var r := Deinitialize(s, o);
            && r.val && r.st.fd == s.fd && r.st.sdioInitialized == 0
            && r.st.rca == s.rca && r.st.sd0Initialized == s.sd0Initialized && r.st.sdhc == s.sdhc
            && Calls(r.st.trace) == Calls(s.trace) + (if s.fd >= 0 then [Close(s.fd)] else [])
            && Commands(r.st.trace) == Commands(s.trace)
  {
    if s.fd >= 0 {
      CallsSnoc(s.trace, Close(s.fd));
      CommandsSnoc(s.trace, Close(s.fd));
    }
  }

  /** `sdio_Shutdown` does nothing and fails unless the card was brought up; then it
      deinitializes, clears `__sd0_initialized` and succeeds. */
  lemma ShutdownOutcome(s: St, o: Oracle)
    ensures var r := Shutdown(s, o);
            && (s.sd0Initialized == 0 ==> r == Out(s, false))
            && (s.sd0Initialized != 0 ==>
                  && r.val && r.st.sd0Initialized == 0 && r.st.sdioInitialized == 0 && r.st.fd == s.fd
                  && r.st.rca == s.rca && r.st.sdhc == s.sdhc
                  && Commands(r.st.trace) == Commands(s.trace)
                  && Calls(r.st.trace) == Calls(s.trace) + (if s.fd >= 0 then [Close(s.fd)] else []))
  {
    DeinitializeCalls(s, o);
  }

  /** `sdio_Startup` succeeds at once, doing nothing, when the driver is already
      started. Otherwise it opens the device (mode 0) and succeeds exactly when the
      open gave a valid handle and `__sd0_initio` succeeded on it; then it sets
      `__sdio_initialized`. On either failure it deinitializes, closing whatever
      handle is then held (the reopened one after a controller reset). */
  lemma StartupOutcome(s: St, o: Oracle)
    ensures var r := Startup(s, o);
            && (s.sdioInitialized == 1 ==> r == Out(s, true))
            && (s.sdioInitialized != 1 ==>
                  && (r.val <==> r.st.sdioInitialized == 1)
                  && (r.val ==> r.st.sd0Initialized == 1 && r.st.fd >= 0))
            && (Valid(s) ==> Valid(r.st))
    ensures var r := Startup(s, o);
            var s1 := s.(trace := s.trace + [Open(Sd0Path, 0)], fd := o(s.trace, Open(Sd0Path, 0)).ret);
            var i := InitIo(s1, o);
            s.sdioInitialized != 1 ==>
              && (r.val <==> s1.fd >= 0 && i.val)
              && (r.val ==> r.st == i.st.(sdioInitialized := 1))
              && (!r.val ==> r.st == Deinitialize(if s1.fd < 0 then s1 else i.st, o).st)
  {
    if s.sdioInitialized != 1 {
      var op := Ask(s, o, Open(Sd0Path, 0));
      var s1 := op.st.(fd := op.val.ret);
      DeinitializeCalls(s1, o);
      if s1.fd >= 0 {
        InitIoOutcome(s1, o);
        DeinitializeCalls(InitIo(s1, o).st, o);
      }
    }
  }

  /** Starting the driver a second time after a successful start changes nothing. */
  lemma StartupIdempotent(s: St, o: Oracle)
    requires Startup(s, o).val
    ensures Startup(Startup(s, o).st, o) == Out(Startup(s, o).st, true)
  {
    StartupOutcome(s, o);
  }

  /** The public routines keep the three flags at 0 or 1. */
  lemma PublicKeepsValid(s: St, o: Oracle, cmd: U32, sector: U32, numSectors: U32, buffer: Addr)
    requires Valid(s)
    ensures Valid(Startup(s, o).st) && Valid(Shutdown(s, o).st) && Valid(Deinitialize(s, o).st)
    ensures Valid(Transfer(s, o, cmd, sector, numSectors, buffer).st)
    ensures Valid(IsInserted(s, o).st) && Valid(IsInitialized(s, o).st)
  {
    DeinitializeCalls(s, o);
    ShutdownOutcome(s, o);
    StartupOutcome(s, o);
    if Misaligned(buffer) || buffer == 0 {
      TransferRejects(s, o, cmd, sector, numSectors, buffer);
    } else if o(s.trace + [SyncAfterWrite(RequestBlock)], CommandCall(s, SelectRequest(s.rca), 0)).ret < 0 {
      TransferSelectFails(s, o, cmd, sector, numSectors, buffer);
    } else {
      TransferSends(s, o, cmd, sector, numSectors, buffer);
    }
  }

  // ---------------------------------------------------------------------------
  // Status queries

  /** `sdio_IsInserted` and `sdio_IsInitialized` make the status query and test their
      bit of the status word, or of the error code's bits when the query fails, so a
      query that fails with -1 reports a card inserted and initialized. */
  lemma StatusQueries(s: St, o: Oracle)
    ensures var call := Ioctl(s.fd, IoctlGetStatus, NoInput, 4);
            var ans := o(s.trace + [SyncAfterWrite(StatusWord)], call);
            var word := if ans.ret < 0 then ToU32(ans.ret) else ans.word;
            var ins, ini := IsInserted(s, o), IsInitialized(s, o);
            && (ins.val <==> HasBit(word, StatusCardInserted))
            && (ini.val <==> HasBit(word, StatusCardInitialized))
            && (ans.ret == -1 ==> ins.val && ini.val)
            && SameVars(s, ins.st) && Calls(ins.st.trace) == Calls(s.trace) + [call]
            && Commands(ins.st.trace) == Commands(s.trace)
            && SameVars(s, ini.st) && Calls(ini.st.trace) == Calls(s.trace) + [call]
            && Commands(ini.st.trace) == Commands(s.trace)
  {
    GetStatusCall(s, o);
  }
}
