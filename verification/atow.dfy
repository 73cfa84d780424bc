/**
 * The narrow-to-wide translator (winproc.c WINPROC_CallProcAtoW): a caller
 * speaking the ANSI encoding sends a message to a Unicode window procedure.
 * Each branch below is one marshalling policy of the source's switch; the
 * translator itself only picks the branch.
 */
module AtoW {
  import opened Common
  import opened Buffers
  import opened Codepage
  import opened Messages
  import opened Records
  import opened Trace

  /** Size of the static scratch buffer of every branch (WCHAR buffer[512]). */
  const STATIC_BYTES: nat := 1024

  /** The wide form of a field's string; nothing for an integer resource. */
  function WideOf(env: Env, f: Field<Byte>): seq<WChar>
  {
    if f.Chars? then env.toWide(f.s) else []
  }

  /** The *_lenW of a field: RtlMultiByteToUnicodeSize of strlen+1 bytes, or
      0 when the field is an integer resource. */
  function WideBytes(env: Env, f: Field<Byte>): (n: nat)
    requires FieldOk(f, 0 as Byte)
    ensures n == 2 * |WideOf(env, f)|
  {
    if f.IntRes? then 0 else
      assert Take(f.s, |f.s|) == f.s;
      MbToUnicodeSize(env, f.s, |f.s|)
  }

  /** RtlMultiByteToUnicodeN of a field's string into exactly WideBytes bytes. */
  function ConvertField(env: Env, f: Field<Byte>): (w: seq<WChar>)
    requires FieldOk(f, 0 as Byte)
    ensures w == WideOf(env, f)
  {
    if WideBytes(env, f) != 0 then
      assert Take(f.s, |f.s|) == f.s;
      MbToUnicodeN(env, WideBytes(env, f), f.s, |f.s|)
    else []
  }

  /** The layout of a translated creation record: the class at unit 0 of the
      scratch buffer, the window name right after the class's wide units;
      integer-resource fields keep their value and take no room; for an MDI
      child the copied sub-record's title and class are the translated name
      and class. */
  predicate CreateLayout(env: Env, mdiChild: bool, cs: CreateRecord<Field<Byte>>, inv: Invocation)
  {
    var classW := WideOf(env, cs.cls);
    var nameW := WideOf(env, cs.name);
    && inv.scratch == WideUnits(classW + nameW)
    && inv.lParam.CreateArg?
    && (var rec := inv.lParam.cs;
        && (cs.cls.IntRes? ==> rec.cls == Id(cs.cls.id))
        && (|classW| > 0 ==> rec.cls == Scratch(0))
        && (cs.name.IntRes? ==> rec.name == Id(cs.name.id))
        && (|nameW| > 0 ==> rec.name == Scratch(|classW|))
        && SameCreateFixed(cs, rec)
        && (mdiChild ==>
              && cs.params.MdiChild? && rec.params.MdiChild?
              && rec.params.mdi.title == rec.name && rec.params.mdi.cls == rec.cls
              && SameMdiFixed(cs.params.mdi, rec.params.mdi))
        && (!mdiChild ==> rec.params == PassParams(cs.params)))
  }

  /** WM_CREATE / WM_NCCREATE (winproc.c:184-229). */
  function Create(env: Env, proc: Proc, win: Window, msg: nat, wParam: nat,
                  cs: CreateRecord<Field<Byte>>, heapOk: bool, result0: int): (o: Outcome<Byte>)
    requires FieldOk(cs.cls, 0 as Byte) && FieldOk(cs.name, 0 as Byte)
    requires IsMdiChild(win.exStyle) ==> cs.params.MdiChild?
    ensures o.calls == [] <==>
      STATIC_BYTES < 2 * (|WideOf(env, cs.cls)| + |WideOf(env, cs.name)|) && !heapOk
    ensures o.calls == [] ==> o == Skipped(result0)
    ensures o.calls != [] ==>
      && |o.calls| == 1 && o.calls[0].msg == msg && o.calls[0].wParam == wParam
      && CreateLayout(env, IsMdiChild(win.exStyle), cs, o.calls[0])
      && o.ret == proc(o.calls[0]).ret && o.result == proc(o.calls[0]).result
    ensures Balanced(o.heap) && o.sent == [] && o.writes == []
  {
    var classBytes := WideBytes(env, cs.cls);
    var nameBytes := WideBytes(env, cs.name);
    match GetBuffer(STATIC_BYTES, classBytes + nameBytes, heapOk)
    case None => Skipped(result0)
    case Some(buf) =>
      var cls := Relocate(cs.cls, classBytes, 0);
      var name := Relocate(cs.name, nameBytes, classBytes / 2);
      var params := if IsMdiChild(win.exStyle) then MdiChild(AliasMdi(cs.params.mdi, name, cls))
                    else PassParams(cs.params);
      var scratch := ConvertField(env, cs.cls) + ConvertField(env, cs.name);
      var inv := Invocation(msg, wParam, CreateArg(Rebuild(cs, params, name, cls)), WideUnits(scratch));
      Outcome(proc(inv).ret, proc(inv).result, [inv], [], Scoped(buf), [])
  }

  /** The layout of a translated MDI creation record: the title at unit 0,
      the class right after the title's wide units, integer resources kept. */
  predicate MdiCreateLayout(env: Env, mcs: MdiCreateRecord<Field<Byte>>, inv: Invocation)
  {
    var titleW := WideOf(env, mcs.title);
    var classW := WideOf(env, mcs.cls);
    && inv.scratch == WideUnits(titleW + classW)
    && inv.lParam.MdiCreateArg?
    && (var rec := inv.lParam.mcs;
        && (mcs.title.IntRes? ==> rec.title == Id(mcs.title.id))
        && (|titleW| > 0 ==> rec.title == Scratch(0))
        && (mcs.cls.IntRes? ==> rec.cls == Id(mcs.cls.id))
        && (|classW| > 0 ==> rec.cls == Scratch(|titleW|))
        && SameMdiFixed(mcs, rec))
  }

  /** WM_MDICREATE (winproc.c:231-267). */
  function MdiCreate(env: Env, proc: Proc, msg: nat, wParam: nat,
                     mcs: MdiCreateRecord<Field<Byte>>, heapOk: bool, result0: int): (o: Outcome<Byte>)
    requires FieldOk(mcs.title, 0 as Byte) && FieldOk(mcs.cls, 0 as Byte)
    ensures o.calls == [] <==>
      STATIC_BYTES < 2 * (|WideOf(env, mcs.title)| + |WideOf(env, mcs.cls)|) && !heapOk
    ensures o.calls == [] ==> o == Skipped(result0)
    ensures o.calls != [] ==>
      && |o.calls| == 1 && o.calls[0].msg == msg && o.calls[0].wParam == wParam
      && MdiCreateLayout(env, mcs, o.calls[0])
      && o.ret == proc(o.calls[0]).ret && o.result == proc(o.calls[0]).result
    ensures Balanced(o.heap) && o.sent == [] && o.writes == []
  {
    var titleBytes := WideBytes(env, mcs.title);
    var classBytes := WideBytes(env, mcs.cls);
    match GetBuffer(STATIC_BYTES, titleBytes + classBytes, heapOk)
    case None => Skipped(result0)
    case Some(buf) =>
      var title := Relocate(mcs.title, titleBytes, 0);
      var cls := Relocate(mcs.cls, classBytes, titleBytes / 2);
      var scratch := ConvertField(env, mcs.title) + ConvertField(env, mcs.cls);
      var inv := Invocation(msg, wParam, MdiCreateArg(AliasMdi(mcs, title, cls)), WideUnits(scratch));
      Outcome(proc(inv).ret, proc(inv).result, [inv], [], Scoped(buf), [])
  }

  /** WM_GETTEXT / WM_ASKCBFORMATNAME (winproc.c:269-288). The caller's
      buffer holds wParam bytes; the procedure fills a wide scratch buffer of
      wParam units, and its first `ret` units come back converted, clamped
      to wParam-1 bytes and always followed by a zero. */
  function GetText(env: Env, proc: Proc, msg: nat, wParam: nat, heapOk: bool, result0: int): (o: Outcome<Byte>)
    ensures o.calls == [] <==> STATIC_BYTES < Dword(wParam * 2) && !heapOk
    ensures o.calls == [] ==> o == Skipped(result0)
    ensures o.calls != [] ==>
      && o.calls == [Invocation(msg, wParam, ScratchPtr, WideUnits([]))]
      && o.ret == proc(o.calls[0]).ret
    ensures o.calls != [] && wParam == 0 ==>
      o.writes == [] && o.result == proc(o.calls[0]).result
    ensures o.calls != [] && wParam != 0 ==>
      var rep := proc(o.calls[0]);
      var text := env.toNarrow(Take(rep.wide, Dword(rep.ret * 2) / 2));
      && 0 <= o.result <= wParam - 1
      && |o.writes| == 1 && o.writes[0].at == 0
      && |o.writes[0].units| == o.result + 1
      && o.writes[0].units[o.result] == 0
      && o.writes[0].units[..o.result] <= text
      && (rep.result != 0 ==> o.result == Min(Dword(wParam - 1), |text|))
      && (rep.result == 0 ==> o.result == 0)
    ensures WritesWithin(o.writes, wParam)
    ensures Balanced(o.heap) && o.sent == []
  {
    match GetBuffer(STATIC_BYTES, Dword(wParam * 2), heapOk)
    case None => Skipped(result0)
    case Some(buf) =>
      var inv := Invocation(msg, wParam, ScratchPtr, WideUnits([]));
      var rep := proc(inv);
      if wParam != 0 then
        var conv := if rep.result != 0 then UnicodeToMbN(env, Dword(wParam - 1), rep.wide, Dword(rep.ret * 2))
                    else [];
        assert (conv + [0])[..|conv|] == conv;
        Outcome(rep.ret, |conv|, [inv], [], Scoped(buf), [Write(0, conv + [0])])
      else
        Outcome(rep.ret, rep.result, [inv], [], Scoped(buf), [])
  }

  /** WM_SETTEXT and the other input-string messages (winproc.c:306-328): a
      non-NULL string is converted into a wide scratch buffer for the call. */
  function SetText(env: Env, proc: Proc, msg: nat, wParam: nat, lp: Param<Byte>,
                   heapOk: bool, result0: int): (o: Outcome<Byte>)
    requires lp.Text? || IsNull(lp)
    requires lp.Text? ==> CStrA(lp.s)
    ensures IsNull(lp) ==> o == PassThrough(proc, msg, wParam)
    ensures lp.Text? ==>
      && (o.calls == [] <==> STATIC_BYTES < 2 * |env.toWide(lp.s)| && !heapOk)
      && (o.calls == [] ==> o == Skipped(result0))
      && (o.calls != [] ==>
            && o.calls == [Invocation(msg, wParam, ScratchPtr, WideUnits(env.toWide(lp.s)))]
            && o.ret == proc(o.calls[0]).ret && o.result == proc(o.calls[0]).result)
    ensures Balanced(o.heap) && o.sent == [] && o.writes == []
  {
    if !lp.Text? then PassThrough(proc, msg, wParam)
    else
      var lenA := |lp.s|;
      assert Take(lp.s, lenA) == lp.s;
      var lenW := MbToUnicodeSize(env, lp.s, lenA);
      var wide := MbToUnicodeN(env, lenW, lp.s, lenA);
      assert wide == env.toWide(lp.s);
      match GetBuffer(STATIC_BYTES, lenW, heapOk)
      case None => Skipped(result0)
      case Some(buf) =>
        var inv := Invocation(msg, wParam, ScratchPtr, WideUnits(wide));
        Outcome(proc(inv).ret, proc(inv).result, [inv], [], Scoped(buf), [])
  }

  /** LB_ADDSTRING and the other list/combo string messages
      (winproc.c:290-305): lParam is converted as an input string only when
      it is non-NULL and the control keeps strings; otherwise it is an item
      value passed through. */
  function ListString(env: Env, proc: Proc, win: Window, msg: nat, wParam: nat, lp: Param<Byte>,
                      heapOk: bool, result0: int): (o: Outcome<Byte>)
    requires !IsNull(lp) && TestLBForStr(win.style, msg) ==> lp.Text? && CStrA(lp.s)
    ensures IsNull(lp) || !TestLBForStr(win.style, msg) ==> o == PassThrough(proc, msg, wParam)
    ensures !IsNull(lp) && TestLBForStr(win.style, msg) ==>
      && (o.calls == [] <==> STATIC_BYTES < 2 * |env.toWide(lp.s)| && !heapOk)
      && (o.calls != [] ==> o.calls == [Invocation(msg, wParam, ScratchPtr, WideUnits(env.toWide(lp.s)))])
    ensures Balanced(o.heap) && o.sent == [] && o.writes == []
  {
    if IsNull(lp) || !TestLBForStr(win.style, msg) then PassThrough(proc, msg, wParam)
    else SetText(env, proc, msg, wParam, lp, heapOk, result0)
  }

  /** LB_GETTEXT / CB_GETLBTEXT (winproc.c:330-346): the procedure fills a
      fixed 512-unit buffer; its text through the terminator comes back
      converted into at most 1536 bytes, and the result is the byte count
      less one, computed in a DWORD. */
  function ListGetText(env: Env, proc: Proc, win: Window, msg: nat, wParam: nat, lp: Param<Byte>): (o: Outcome<Byte>)
    ensures IsNull(lp) || !TestLBForStr(win.style, msg) ==> o == PassThrough(proc, msg, wParam)
    ensures !IsNull(lp) && TestLBForStr(win.style, msg) ==>
      var rep := proc(Invocation(msg, wParam, ScratchPtr, WideUnits([])));
      var text := env.toNarrow(Take(rep.wide, StrLen(rep.wide, 0 as WChar) + 1));
      && o.calls == [Invocation(msg, wParam, ScratchPtr, WideUnits([]))]
      && o.ret == rep.ret
      && (rep.result < 0 ==> o.result == rep.result && o.writes == [])
      && (rep.result >= 0 ==>
            && |o.writes| == 1 && o.writes[0].at == 0
            && o.writes[0].units <= text
            && |o.writes[0].units| == Min(1536, |text|)
            && o.result == Dword(|o.writes[0].units| - 1))
    ensures o.heap == [] && o.sent == []
  {
    if IsNull(lp) || !TestLBForStr(win.style, msg) then PassThrough(proc, msg, wParam)
    else
      var inv := Invocation(msg, wParam, ScratchPtr, WideUnits([]));
      var rep := proc(inv);
      if rep.result >= 0 then
        var conv := UnicodeToMbN(env, 512 * 3, rep.wide, (StrLen(rep.wide, 0 as WChar) + 1) * 2);
        assert ((StrLen(rep.wide, 0 as WChar) + 1) * 2) / 2 == StrLen(rep.wide, 0 as WChar) + 1;
        Outcome(rep.ret, Dword(|conv| - 1), [inv], [], [], [Write(0, conv)])
      else
        Outcome(rep.ret, rep.result, [inv], [], [], [])
  }

  /** EM_GETLINE (winproc.c:348-365): the caller's buffer starts with a WORD
      holding its capacity `cap` in bytes; the wide scratch buffer starts with
      the same count, and the line comes back converted into at most `cap`
      bytes, zero-terminated only when shorter than `cap`. */
  function GetLine(env: Env, proc: Proc, msg: nat, wParam: nat, cap: nat, heapOk: bool, result0: int): (o: Outcome<Byte>)
    requires cap < 0x10000
    ensures o.calls == [] <==> STATIC_BYTES < cap * 2 && !heapOk
    ensures o.calls == [] ==> o == Skipped(result0)
    ensures o.calls != [] ==>
      var rep := proc(o.calls[0]);
      var text := env.toNarrow(Take(rep.wide, Dword(rep.result * 2) / 2));
      && o.calls == [Invocation(msg, wParam, ScratchPtr, WideUnits([cap as WChar]))]
      && o.ret == rep.ret
      && (rep.result == 0 ==> o.writes == [] && o.result == 0)
      && (rep.result != 0 ==>
            && o.result == Min(cap, |text|)
            && 1 <= |o.writes| <= 2
            && o.writes[0] == Write(0, text[..o.result])
            && (o.result < cap <==> |o.writes| == 2)
            && (o.result < cap ==> o.writes[1] == Write(o.result, [0])))
    ensures WritesWithin(o.writes, cap)
    ensures Balanced(o.heap) && o.sent == []
  {
    match GetBuffer(STATIC_BYTES, cap * 2, heapOk)
    case None => Skipped(result0)
    case Some(buf) =>
      var inv := Invocation(msg, wParam, ScratchPtr, WideUnits([cap as WChar]));
      var rep := proc(inv);
      if rep.result != 0 then
        var conv := UnicodeToMbN(env, cap, rep.wide, Dword(rep.result * 2));
        var term := if |conv| < cap then [Write(|conv|, [0 as Byte])] else [];
        Outcome(rep.ret, |conv|, [inv], [], Scoped(buf), [Write(0, conv)] + term)
      else
        Outcome(rep.ret, rep.result, [inv], [], Scoped(buf), [])
  }

  /** WM_GETDLGCODE (winproc.c:367-375): a MSG passed in lParam is copied
      with its character mapped; the procedure is not called when the
      mapping refuses the character. */
  function DlgCode(env: Env, proc: Proc, msg: nat, wParam: nat, lp: Param<Byte>, result0: int): (o: Outcome<Byte>)
    requires lp.MsgPtr? || IsNull(lp)
    ensures IsNull(lp) ==> o == PassThrough(proc, msg, wParam)
    ensures lp.MsgPtr? ==>
      match env.mapCharAtoW(lp.m.message, lp.m.wParam, NoMapping)
      case None => o == Skipped(result0)
      case Some(w) =>
        && o.calls == [Invocation(msg, wParam, MsgCopy(lp.m.(wParam := w)), NoScratch)]
        && o.ret == proc(o.calls[0]).ret && o.result == proc(o.calls[0]).result
    ensures o.heap == [] && o.sent == [] && o.writes == []
  {
    if IsNull(lp) then PassThrough(proc, msg, wParam)
    else
      match env.mapCharAtoW(lp.m.message, lp.m.wParam, NoMapping)
      case None => Skipped(result0)
      case Some(w) =>
        var inv := Invocation(msg, wParam, MsgCopy(lp.m.(wParam := w)), NoScratch);
        Outcome(proc(inv).ret, proc(inv).result, [inv], [], [], [])
  }

  /** WM_CHAR and the other character messages (winproc.c:377-387): the
      character is mapped with the caller's mapping mode, and the procedure
      is called only when the mapping yields a character. */
  function Char(env: Env, proc: Proc, msg: nat, wParam: nat, mapping: Mapping, result0: int): (o: Outcome<Byte>)
    ensures env.mapCharAtoW(msg, wParam, mapping).None? ==> o == Skipped(result0)
    ensures env.mapCharAtoW(msg, wParam, mapping).Some? ==>
      && o.calls == [Invocation(msg, env.mapCharAtoW(msg, wParam, mapping).value, Same, NoScratch)]
      && o.ret == proc(o.calls[0]).ret && o.result == proc(o.calls[0]).result
    ensures o.heap == [] && o.sent == [] && o.writes == []
  {
    match env.mapCharAtoW(msg, wParam, mapping)
    case None => Skipped(result0)
    case Some(w) => PassThrough(proc, msg, w)
  }

  /** The text-fetching message matching a length query. */
  function GetTextFor(msg: nat): (r: nat)
    ensures msg == WM_GETTEXTLENGTH ==> r == WM_GETTEXT
    ensures msg == CB_GETLBTEXTLEN ==> r == CB_GETLBTEXT
    ensures msg != WM_GETTEXTLENGTH && msg != CB_GETLBTEXTLEN ==> r == LB_GETTEXT
  {
    if msg == WM_GETTEXTLENGTH then WM_GETTEXT
    else if msg == CB_GETLBTEXTLEN then CB_GETLBTEXT
    else LB_GETTEXT
  }

  /** WM_GETTEXTLENGTH / CB_GETLBTEXTLEN / LB_GETTEXTLEN (winproc.c:389-414):
      a wide length says nothing about the narrow one, so after the query
      the text itself is fetched into a scratch buffer of length+1 units
      (through the procedure when it is a plain window procedure, through
      SendMessageW otherwise) and its narrow size becomes the result. */
  function LengthQuery(env: Env, proc: Proc, send: Proc, isWindowProc: bool, msg: nat, wParam: nat,
                       heapOk: bool): (o: Outcome<Byte>)
    ensures var rep1 := proc(Invocation(msg, wParam, Same, NoScratch));
      && |o.calls| >= 1 && o.calls[0] == Invocation(msg, wParam, Same, NoScratch)
      && o.ret == rep1.ret
      && (rep1.result < 0 ==> o.calls == [o.calls[0]] && o.sent == [] && o.result == rep1.result)
      && (rep1.result >= 0 ==>
            var len := Dword(rep1.result + 1);
            var fetch := Invocation(GetTextFor(msg), if msg == WM_GETTEXTLENGTH then len else wParam,
                                    ScratchPtr, WideUnits([]));
            && (STATIC_BYTES < len * 2 && !heapOk ==>
                  o.calls == [o.calls[0]] && o.sent == [] && o.result == rep1.result)
            && (len * 2 <= STATIC_BYTES || heapOk ==>
                  var rep2 := if isWindowProc then proc(fetch) else send(fetch);
                  var count := if isWindowProc then rep2.result else rep2.ret;
                  && (isWindowProc ==> o.calls == [o.calls[0], fetch] && o.sent == [])
                  && (!isWindowProc ==> o.calls == [o.calls[0]] && o.sent == [fetch])
                  && o.result == |env.toNarrow(Take(rep2.wide, Dword(count * 2) / 2))|))
    ensures Balanced(o.heap) && o.writes == []
  {
    var inv1 := Invocation(msg, wParam, Same, NoScratch);
    var rep1 := proc(inv1);
    if rep1.result < 0 then Outcome(rep1.ret, rep1.result, [inv1], [], [], [])
    else
      var len := Dword(rep1.result + 1);
      var wp := if msg == WM_GETTEXTLENGTH then len else wParam;
      match GetBuffer(STATIC_BYTES, len * 2, heapOk)
      case None => Outcome(rep1.ret, rep1.result, [inv1], [], [], [])
      case Some(buf) =>
        var fetch := Invocation(GetTextFor(msg), wp, ScratchPtr, WideUnits([]));
        var rep2 := if isWindowProc then proc(fetch) else send(fetch);
        var count := if isWindowProc then rep2.result else rep2.ret;
        var calls := if isWindowProc then [inv1, fetch] else [inv1];
        var sent := if isWindowProc then [] else [fetch];
        Outcome(rep1.ret, UnicodeToMbSize(env, rep2.wide, Dword(count * 2)), calls, sent, Scoped(buf), [])
  }

  /** What the caller's lParam must be under the policy of `msg`: the
      source dereferences it as that structure. */
  predicate Shaped(win: Window, msg: nat, lp: Param<Byte>)
  {
    match AtoWPolicy(msg)
    case CreatePolicy =>
      && lp.CreatePtr? && FieldOk(lp.cs.cls, 0 as Byte) && FieldOk(lp.cs.name, 0 as Byte)
      && (IsMdiChild(win.exStyle) ==> lp.cs.params.MdiChild?)
    case MdiCreatePolicy =>
      lp.MdiCreatePtr? && FieldOk(lp.mcs.title, 0 as Byte) && FieldOk(lp.mcs.cls, 0 as Byte)
    case SetTextPolicy => IsNull(lp) || (lp.Text? && CStrA(lp.s))
    case ListStringPolicy => !IsNull(lp) && TestLBForStr(win.style, msg) ==> lp.Text? && CStrA(lp.s)
    case GetLinePolicy => lp.LineBuf? && lp.cap < 0x10000
    case DlgCodePolicy => IsNull(lp) || lp.MsgPtr?
    case _ => true
  }

  /** WINPROC_CallProcAtoW (winproc.c:174-427): apply the policy of `msg`.
      `isWindowProc` says the callback is the plain window-procedure caller,
      `send` stands for SendMessageW, `heapOk` for whether a heap scratch
      buffer can be had, `result0` for the LRESULT slot on entry. */
  function CallProcAtoW(env: Env, proc: Proc, send: Proc, isWindowProc: bool, win: Window,
                        msg: nat, wParam: nat, lp: Param<Byte>, mapping: Mapping,
                        heapOk: bool, result0: int): (o: Outcome<Byte>)
    requires Shaped(win, msg, lp)
    ensures AtoWPolicy(msg) == PassPolicy ==> o == PassThrough(proc, msg, wParam)
    ensures AtoWPolicy(msg) == UntranslatedPolicy ==> o == Skipped(result0)
    ensures o.calls == [] ==> o == Skipped(result0)
    ensures |o.calls| + |o.sent| <= 2
    ensures |o.calls| + |o.sent| == 2 ==> AtoWPolicy(msg) == LengthQueryPolicy
    ensures o.writes != [] ==> AtoWPolicy(msg) in {GetTextPolicy, ListGetTextPolicy, GetLinePolicy}
    ensures AtoWPolicy(msg) != CharPolicy ==> forall i :: 0 <= i < |o.calls| ==> o.calls[i].msg in {msg, GetTextFor(msg)}
    ensures Balanced(o.heap)
  {
    match AtoWPolicy(msg)
    case CreatePolicy => Create(env, proc, win, msg, wParam, lp.cs, heapOk, result0)
    case MdiCreatePolicy => MdiCreate(env, proc, msg, wParam, lp.mcs, heapOk, result0)
    case GetTextPolicy => GetText(env, proc, msg, wParam, heapOk, result0)
    case ListStringPolicy => ListString(env, proc, win, msg, wParam, lp, heapOk, result0)
    case SetTextPolicy => SetText(env, proc, msg, wParam, lp, heapOk, result0)
    case ListGetTextPolicy => ListGetText(env, proc, win, msg, wParam, lp)
    case GetLinePolicy => GetLine(env, proc, msg, wParam, lp.cap, heapOk, result0)
    case DlgCodePolicy => DlgCode(env, proc, msg, wParam, lp, result0)
    case CharPolicy => Char(env, proc, msg, wParam, mapping, result0)
    case LengthQueryPolicy => LengthQuery(env, proc, send, isWindowProc, msg, wParam, heapOk)
    case UntranslatedPolicy => Skipped(result0)
    case _ => PassThrough(proc, msg, wParam)
  }
}
