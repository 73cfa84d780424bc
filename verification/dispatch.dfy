/**
 * Dispatch of a window-procedure call (winproc.c dispatch_win_proc_params)
 * and the choice of reply channel for a call arriving from the kernel
 * (winproc.c User32CallWindowProc).
 */
module Dispatch {
  import opened Common
  import opened Buffers
  import opened Codepage
  import opened Messages
  import opened Records
  import opened Trace
  import opened Unpack
  import AtoW
  import WtoA

  /** The caller's lParam, in the caller's encoding. */
  datatype Message =
    | Narrow(lpA: Param<Byte>)
    | Wide(lpW: Param<WChar>)

  /** struct win_proc_params as dispatch reads it. `procA16` / `procW16`
      say that the narrow / wide procedure is the 16-bit marker
      WINPROC_PROC16; `dpi` is the DPI awareness the call runs under. */
  datatype Params = Params(msg: nat, wParam: nat, message: Message, ansiDst: bool,
                           procA16: bool, procW16: bool, mapping: Mapping, dpi: nat)

  /** The procedures a call may end up in: the narrow and wide window
      procedures through call_window_proc, and the 16-bit handler. */
  datatype Procs = Procs(ansi: Proc, wide: Proc, wow: Proc, send: Proc)

  /** Which way a call went. */
  datatype Route =
    | Direct        // straight to the procedure of the caller's encoding
    | Wow           // straight to the 16-bit handler
    | ToWide        // through WINPROC_CallProcAtoW to the wide procedure
    | ToNarrow      // through WINPROC_CallProcWtoA to the narrow procedure
    | ToNarrowWow   // through WINPROC_CallProcWtoA to the 16-bit handler

  /** What a dispatch did: the route, the LRESULT, the procedure calls and
      heap traffic, and the thread's DPI awareness during and after. */
  datatype Dispatched = Dispatched(route: Route, result: int, calls: seq<Invocation>, sent: seq<Invocation>,
                                   heap: seq<HeapOp>, dpiDuring: nat, dpiAfter: nat)

  /** The route dispatch_win_proc_params takes (winproc.c:704-727). */
  function RouteOf(p: Params): (r: Route)
    ensures p.message.Wide? && !p.procW16 ==> (r == ToNarrow <==> p.ansiDst)
    ensures p.message.Narrow? && !p.procA16 ==> (r == ToWide <==> !p.ansiDst)
    ensures r in {Wow, ToNarrowWow} <==>
      (p.message.Wide? && p.procW16) || (p.message.Narrow? && p.procA16)
  {
    if p.message.Wide? then
      if p.procW16 then ToNarrowWow
      else if !p.ansiDst then Direct
      else ToNarrow
    else
      if p.procA16 then Wow
      else if !p.ansiDst then ToWide
      else Direct
  }

  /** The lParam shape a translator on the chosen route dereferences. */
  predicate Dispatchable(p: Params, win: Window)
  {
    match RouteOf(p)
    case ToWide => AtoW.Shaped(win, p.msg, p.message.lpA)
    case ToNarrow => WtoA.Shaped(win, p.msg, p.message.lpW)
    case ToNarrowWow => WtoA.Shaped(win, p.msg, p.message.lpW)
    case _ => true
  }

  /** dispatch_win_proc_params (winproc.c:699-731): the LRESULT starts at
      0, the call runs under the message's DPI awareness, and the thread's
      previous awareness `dpiBefore` is put back afterwards. */
  function DispatchWinProc(env: Env, procs: Procs, win: Window, p: Params, stale: Byte,
                           heapOk: bool, dpiBefore: nat): (d: Dispatched)
    requires Dispatchable(p, win)
    ensures d.route == RouteOf(p)
    ensures d.dpiDuring == p.dpi && d.dpiAfter == dpiBefore
    ensures d.route in {Direct, Wow} ==>
      var proc := if d.route == Wow then procs.wow else if p.message.Wide? then procs.wide else procs.ansi;
      && d.calls == [Invocation(p.msg, p.wParam, Same, NoScratch)]
      && d.result == proc(d.calls[0]).result
    ensures d.route == ToWide ==>
      var o := AtoW.CallProcAtoW(env, procs.wide, procs.send, true, win, p.msg, p.wParam, p.message.lpA,
                                 p.mapping, heapOk, 0);
      d.result == o.result && d.calls == o.calls && d.sent == o.sent && d.heap == o.heap
    ensures d.route in {ToNarrow, ToNarrowWow} ==>
      var o := WtoA.CallProcWtoA(env, if d.route == ToNarrow then procs.ansi else procs.wow, win,
                                 p.msg, p.wParam, p.message.lpW, stale, heapOk, 0);
      d.result == o.result && d.calls == o.calls && d.heap == o.heap && d.sent == []
    ensures d.calls == [] ==> d.result == 0
    ensures Balanced(d.heap)
  {
    var route := RouteOf(p);
    match route
    case ToWide =>
      var o := AtoW.CallProcAtoW(env, procs.wide, procs.send, true, win, p.msg, p.wParam, p.message.lpA,
                                 p.mapping, heapOk, 0);
      Dispatched(route, o.result, o.calls, o.sent, o.heap, p.dpi, dpiBefore)
    case ToNarrow =>
      var o := WtoA.CallProcWtoA(env, procs.ansi, win, p.msg, p.wParam, p.message.lpW, stale, heapOk, 0);
      Dispatched(route, o.result, o.calls, o.sent, o.heap, p.dpi, dpiBefore)
    case ToNarrowWow =>
      var o := WtoA.CallProcWtoA(env, procs.wow, win, p.msg, p.wParam, p.message.lpW, stale, heapOk, 0);
      Dispatched(route, o.result, o.calls, o.sent, o.heap, p.dpi, dpiBefore)
    case _ =>
      var proc := if route == Wow then procs.wow else if p.message.Wide? then procs.wide else procs.ansi;
      var inv := Invocation(p.msg, p.wParam, Same, NoScratch);
      Dispatched(route, proc(inv).result, [inv], [], [], p.dpi, dpiBefore)
  }

  /** Outside the 16-bit cases a translator runs exactly when the caller's
      encoding differs from the procedure's: narrow to wide through AtoW,
      wide to narrow through WtoA. */
  lemma TranslatesIffEncodingsDiffer(p: Params)
    requires !(p.message.Narrow? && p.procA16) && !(p.message.Wide? && p.procW16)
    ensures RouteOf(p) in {ToWide, ToNarrow} <==> p.message.Narrow? != p.ansiDst
    ensures RouteOf(p) == ToWide <==> p.message.Narrow? && !p.ansiDst
    ensures RouteOf(p) == ToNarrow <==> p.message.Wide? && p.ansiDst
    ensures RouteOf(p) == Direct <==> p.message.Narrow? == p.ansiDst
  {
  }

  /** sizeof(LRESULT) on a 64-bit build. */
  const LRESULT_SIZE: nat := 8
  /** The stack buffer used when no message data came along. */
  const STACK_BUFFER_SIZE: nat := 128

  /** Messages whose result goes back in a slot in front of the message
      data, so that the data the procedure filled in travels with it
      (winproc.c:950-1003). */
  predicate ReplySlotMsg(msg: nat)
  {
    msg in {
      WM_NCCREATE, WM_CREATE, WM_NCCALCSIZE, WM_GETTEXT, WM_ASKCBFORMATNAME,
      WM_WININICHANGE, WM_SETTEXT, WM_DEVMODECHANGE, CB_DIR, LB_DIR, LB_ADDFILE,
      EM_REPLACESEL, WM_GETMINMAXINFO, WM_MEASUREITEM, WM_DELETEITEM, WM_COMPAREITEM,
      WM_WINDOWPOSCHANGING, WM_WINDOWPOSCHANGED, WM_COPYDATA, WM_HELP, WM_STYLECHANGING,
      WM_STYLECHANGED, WM_GETDLGCODE, SBM_SETSCROLLINFO, SBM_GETSCROLLINFO,
      SBM_GETSCROLLBARINFO, EM_GETSEL, SBM_GETRANGE, CB_GETEDITSEL, EM_GETRECT,
      LB_GETITEMRECT, CB_GETDROPPEDCONTROLRECT, EM_SETRECT, EM_SETRECTNP, EM_GETLINE,
      EM_SETTABSTOPS, LB_SETTABSTOPS, CB_ADDSTRING, CB_INSERTSTRING, CB_FINDSTRING,
      CB_FINDSTRINGEXACT, CB_SELECTSTRING, LB_ADDSTRING, LB_INSERTSTRING, LB_FINDSTRING,
      LB_FINDSTRINGEXACT, LB_SELECTSTRING, CB_GETLBTEXT, LB_GETTEXT, LB_GETSELITEMS,
      WM_NEXTMENU, WM_SIZING, WM_MOVING, WM_MDICREATE
    }
  }

  /** The parameters a procedure receives after unpacking. */
  datatype Delivery = Delivery(wParam: Loc, lParam: Loc)

  /** What goes back to the kernel. */
  datatype CallbackReply =
    | Refused                                         // unpack failed: FALSE, nothing returned
    | ResultSlot(result: int, before: Buf, length: nat) // LRESULT stored just before `before`, returned with the data
    | PlainResult(result: int)                        // the LRESULT alone

  /** The effect of User32CallWindowProc: the reply, the delivery made (if
      any), the result passed to NtUserMessageCall (if any) and the heap
      traffic of the unpack buffer. */
  datatype Served = Served(reply: CallbackReply, delivered: Option<Delivery>, posted: Option<int>, heap: seq<HeapOp>)

  /** Where unpacking happens and how large the buffer is taken to be
      (winproc.c:929-940): the data after the parameters when there is
      any, the stack buffer otherwise. */
  function UnpackBuffer(size: nat, paramsSize: nat): (r: (Buf, nat))
    ensures Capacity(r.0) == r.1 && r.0 != Null && r.0 != Heap(r.1)
    ensures r.0.Inbound? <==> paramsSize < size
    ensures r.0.Inbound? ==> paramsSize + r.1 == size
  {
    if size > paramsSize then (Inbound(size - paramsSize), size - paramsSize)
    else (Static(STACK_BUFFER_SIZE), STACK_BUFFER_SIZE)
  }

  /** unpack_message is told the true size of the buffer it works in, so
      an answered WM_MDIGETACTIVE query always has room for its BOOL,
      whether it arrived with data or not. */
  lemma ActiveQueryHasRoom(m: Packed, size: nat, paramsSize: nat, ansi: bool, heapOk: bool)
    requires m.msg == WM_MDIGETACTIVE && m.lParam != 0
    ensures var (buffer, bufSize) := UnpackBuffer(size, paramsSize);
      var u := UnpackMessage(m, buffer, bufSize, ansi, heapOk);
      u.ok ==> u.lParam == InBuffer(0) && Capacity(u.buffer) >= BOOL_SIZE
  {
    assert TreatmentOf(m.msg) == ActiveQuery;
  }

  /** User32CallWindowProc (winproc.c:922-1021), reply-channel selection.
      `size` is the ULONG length of the parameters plus message data,
      `paramsSize` is sizeof(struct win_proc_params), and `run` stands for
      dispatch_win_proc_params applied to the delivered parameters. */
  function CallWindowProc(needsUnpack: bool, m: Packed, size: nat, paramsSize: nat, ansi: bool,
                          heapOk: bool, run: Delivery -> int): (s: Served)
    requires needsUnpack ==> WellPacked(m, ansi)
    ensures !needsUnpack ==>
      var dv := Delivery(Raw(m.wParam), Raw(m.lParam));
      s == Served(PlainResult(run(dv)), Some(dv), None, [])
    ensures needsUnpack ==>
      var (buffer, bufSize) := UnpackBuffer(size, paramsSize);
      var u := UnpackMessage(m, buffer, bufSize, ansi, heapOk);
      var dv := Delivery(u.wParam, u.lParam);
      && (!u.ok ==> s.reply == Refused && s.delivered == None && s.posted == None)
      && (u.ok ==> s.delivered == Some(dv))
      && (u.ok && ReplySlotMsg(m.msg) ==>
            s.reply == ResultSlot(run(dv), u.buffer, Dword(LRESULT_SIZE + size - paramsSize)) && s.posted == None)
      && (u.ok && !ReplySlotMsg(m.msg) ==> s.reply == PlainResult(run(dv)) && s.posted == Some(run(dv)))
    ensures s.reply.Refused? <==> s.delivered.None?
    ensures s.reply.ResultSlot? ==> (s.reply.before.Inbound? <==> paramsSize < size)
    ensures Balanced(s.heap)
  {
    if !needsUnpack then
      var dv := Delivery(Raw(m.wParam), Raw(m.lParam));
      Served(PlainResult(run(dv)), Some(dv), None, [])
    else
      var (buffer, bufSize) := UnpackBuffer(size, paramsSize);
      var u := UnpackMessage(m, buffer, bufSize, ansi, heapOk);
      if !u.ok then Served(Refused, None, None, AcquireOps(u.buffer))
      else
        var dv := Delivery(u.wParam, u.lParam);
        var result := run(dv);
        if ReplySlotMsg(m.msg) then
          Served(ResultSlot(result, u.buffer, Dword(LRESULT_SIZE + size - paramsSize)), Some(dv), None,
                 AcquireOps(u.buffer))
        else
          Served(PlainResult(result), Some(dv), Some(result), Scoped(u.buffer))
  }
}
