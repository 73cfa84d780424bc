/**
 * The wide-to-narrow translator (winproc.c WINPROC_CallProcWtoA): a caller
 * speaking Unicode sends a message to an ANSI window procedure. The mirror
 * of module AtoW, with its own buffer sizes, the resource-name special case
 * of the creation record, and byte-wise delivery of characters.
 */
module WtoA {
  import opened Common
  import opened Buffers
  import opened Codepage
  import opened Messages
  import opened Records
  import opened Trace
  import opened CharMap

  /** Static scratch buffer of the creation branches (char buffer[1024]). */
  const CREATE_STATIC_BYTES: nat := 1024
  /** Static scratch buffer of the other branches (char buffer[512]). */
  const STATIC_BYTES: nat := 512

  /** The narrow form of a field's string; nothing for an integer resource. */
  function NarrowOf(env: Env, f: Field<WChar>): seq<Byte>
  {
    if f.Chars? then env.toNarrow(f.s) else []
  }

  /** The *_lenA of a field: RtlUnicodeToMultiByteSize of (lstrlenW+1)*2
      bytes, or 0 when the field is an integer resource. */
  function NarrowSize(env: Env, f: Field<WChar>): (n: nat)
    requires FieldOk(f, 0 as WChar)
    ensures n == |NarrowOf(env, f)|
  {
    if f.IntRes? then 0 else
      assert Take(f.s, (|f.s| * 2) / 2) == f.s;
      UnicodeToMbSize(env, f.s, |f.s| * 2)
  }

  /** RtlUnicodeToMultiByteN of a field's string into exactly its size. */
  function ConvertField(env: Env, f: Field<WChar>): (a: seq<Byte>)
    requires FieldOk(f, 0 as WChar)
    ensures a == NarrowOf(env, f)
  {
    if f.Chars? then
      assert Take(f.s, (|f.s| * 2) / 2) == f.s;
      UnicodeToMbN(env, NarrowSize(env, f), f.s, |f.s| * 2)
    else []
  }

  /** A window name whose first unit is 0xffff names a resource by number
      (winproc.c:462-470). */
  predicate IsResName(f: Field<WChar>)
  {
    f.Chars? && |f.s| >= 2 && f.s[0] == 0xffff
  }

  /** The 4-byte narrow resource name built for it: 0xff, the number's low
      byte, its high byte, zero. */
  function ResNameBytes(id: WChar): (r: seq<Byte>)
    ensures |r| == 4 && r[0] == 0xff && r[3] == 0
    ensures Unit(r[1], r[2]) == id
  {
    [0xff] + LittleEndian(id) + [0]
  }


  /** The narrow bytes the creation branch converts for the window name:
      none for an integer resource or a numbered resource name. */
  function NameNarrowOf(env: Env, f: Field<WChar>): seq<Byte>
  {
    if IsResName(f) then [] else NarrowOf(env, f)
  }

  /** The layout of a translated creation record: the class at byte 0 of
      the scratch buffer, the window name right after the class's narrow
      bytes; integer resources keep their value and take no room; a
      numbered resource name points at its 4-byte form; for an MDI child the
      copied sub-record's title and class are the translated name and class. */
  predicate CreateLayout(env: Env, mdiChild: bool, cs: CreateRecord<Field<WChar>>, inv: Invocation)
  {
    var classA := NarrowOf(env, cs.cls);
    var nameA := NameNarrowOf(env, cs.name);
    && inv.scratch == NarrowBytes(classA + nameA)
    && inv.lParam.CreateArg?
    && (var rec := inv.lParam.cs;
        && (cs.cls.IntRes? ==> rec.cls == Id(cs.cls.id))
        && (|classA| > 0 ==> rec.cls == Scratch(0))
        && (cs.name.IntRes? ==> rec.name == Id(cs.name.id))
        && (IsResName(cs.name) ==> rec.name == NameBuf(ResNameBytes(cs.name.s[1])))
        && (|nameA| > 0 ==> rec.name == Scratch(|classA|))
        && SameCreateFixed(cs, rec)
        && (mdiChild ==>
              && cs.params.MdiChild? && rec.params.MdiChild?
              && rec.params.mdi.title == rec.name && rec.params.mdi.cls == rec.cls
              && SameMdiFixed(cs.params.mdi, rec.params.mdi))
        && (!mdiChild ==> rec.params == PassParams(cs.params)))
  }

  /** WM_CREATE / WM_NCCREATE (winproc.c:445-503). */
  function Create(env: Env, proc: Proc, win: Window, msg: nat, wParam: nat,
                  cs: CreateRecord<Field<WChar>>, heapOk: bool, result0: int): (o: Outcome<WChar>)
    requires FieldOk(cs.cls, 0 as WChar) && FieldOk(cs.name, 0 as WChar)
    requires IsMdiChild(win.exStyle) ==> cs.params.MdiChild?
    ensures o.calls == [] <==>
      CREATE_STATIC_BYTES < |NarrowOf(env, cs.cls)| + |NameNarrowOf(env, cs.name)| && !heapOk
    ensures o.calls == [] ==> o == Skipped(result0)
    ensures o.calls != [] ==>
      && |o.calls| == 1 && o.calls[0].msg == msg && o.calls[0].wParam == wParam
      && CreateLayout(env, IsMdiChild(win.exStyle), cs, o.calls[0])
      && o.ret == proc(o.calls[0]).ret && o.result == proc(o.calls[0]).result
    ensures Balanced(o.heap) && o.sent == [] && o.writes == []
  {
    var classLen := NarrowSize(env, cs.cls);
    var resName := IsResName(cs.name);
    var nameLen := if resName then 0 else NarrowSize(env, cs.name);
    match GetBuffer(CREATE_STATIC_BYTES, classLen + nameLen, heapOk)
    case None => Skipped(result0)
    case Some(buf) =>
      var cls := Relocate(cs.cls, classLen, 0);
      var name := if resName then NameBuf(ResNameBytes(cs.name.s[1])) else Relocate(cs.name, nameLen, classLen);
      var params := if IsMdiChild(win.exStyle) then MdiChild(AliasMdi(cs.params.mdi, name, cls))
                    else PassParams(cs.params);
      var nameA := if resName then [] else ConvertField(env, cs.name);
      var scratch := ConvertField(env, cs.cls) + nameA;
      var inv := Invocation(msg, wParam, CreateArg(Rebuild(cs, params, name, cls)), NarrowBytes(scratch));
      Outcome(proc(inv).ret, proc(inv).result, [inv], [], Scoped(buf), [])
  }

  /** The layout of a translated MDI creation record: the title at byte 0,
      the class right after the title's narrow bytes, integer resources kept. */
  predicate MdiCreateLayout(env: Env, mcs: MdiCreateRecord<Field<WChar>>, inv: Invocation)
  {
    var titleA := NarrowOf(env, mcs.title);
    var classA := NarrowOf(env, mcs.cls);
    && inv.scratch == NarrowBytes(titleA + classA)
    && inv.lParam.MdiCreateArg?
    && (var rec := inv.lParam.mcs;
        && (mcs.title.IntRes? ==> rec.title == Id(mcs.title.id))
        && (|titleA| > 0 ==> rec.title == Scratch(0))
        && (mcs.cls.IntRes? ==> rec.cls == Id(mcs.cls.id))
        && (|classA| > 0 ==> rec.cls == Scratch(|titleA|))
        && SameMdiFixed(mcs, rec))
  }

  /** WM_MDICREATE (winproc.c:566-601). */
  function MdiCreate(env: Env, proc: Proc, msg: nat, wParam: nat,
                     mcs: MdiCreateRecord<Field<WChar>>, heapOk: bool, result0: int): (o: Outcome<WChar>)
    requires FieldOk(mcs.title, 0 as WChar) && FieldOk(mcs.cls, 0 as WChar)
    ensures o.calls == [] <==>
      CREATE_STATIC_BYTES < |NarrowOf(env, mcs.title)| + |NarrowOf(env, mcs.cls)| && !heapOk
    ensures o.calls == [] ==> o == Skipped(result0)
    ensures o.calls != [] ==>
      && |o.calls| == 1 && o.calls[0].msg == msg && o.calls[0].wParam == wParam
      && MdiCreateLayout(env, mcs, o.calls[0])
      && o.ret == proc(o.calls[0]).ret && o.result == proc(o.calls[0]).result
    ensures Balanced(o.heap) && o.sent == [] && o.writes == []
  {
    var titleLen := NarrowSize(env, mcs.title);
    var classLen := NarrowSize(env, mcs.cls);
    match GetBuffer(CREATE_STATIC_BYTES, titleLen + classLen, heapOk)
    case None => Skipped(result0)
    case Some(buf) =>
      var title := Relocate(mcs.title, titleLen, 0);
      var cls := Relocate(mcs.cls, classLen, titleLen);
      var scratch := ConvertField(env, mcs.title) + ConvertField(env, mcs.cls);
      var inv := Invocation(msg, wParam, MdiCreateArg(AliasMdi(mcs, title, cls)), NarrowBytes(scratch));
      Outcome(proc(inv).ret, proc(inv).result, [inv], [], Scoped(buf), [])
  }

  /** The wide text WM_GETTEXT brings back: the procedure's first ret+1
      bytes (its text and terminator), converted into at most wParam units. */
  function GetTextUnits(env: Env, wParam: nat, rep: Reply): (w: seq<WChar>)
    ensures |w| <= wParam
    ensures w <= env.toWide(Take(rep.narrow, Dword(rep.ret + 1)))
    ensures |w| == Min(Dword(wParam * 2) / 2, |env.toWide(Take(rep.narrow, Dword(rep.ret + 1)))|)
  {
    MbToUnicodeN(env, Dword(wParam * 2), rep.narrow, Dword(rep.ret + 1))
  }

  /** WM_GETTEXT / WM_ASKCBFORMATNAME as written (winproc.c:505-524): the
      converted text is copied back and a zero is stored at index
      (units converted) - 1, computed without a lower bound. */
  function GetTextAsWritten(env: Env, proc: Proc, msg: nat, wParam: nat, heapOk: bool, result0: int): (o: Outcome<WChar>)
    ensures o.calls == [] <==> STATIC_BYTES < Dword(wParam * 2) && !heapOk
    ensures o.calls == [] ==> o == Skipped(result0)
    ensures o.calls != [] ==>
      var rep := proc(o.calls[0]);
      var w := GetTextUnits(env, wParam, rep);
      && o.calls == [Invocation(msg, wParam, ScratchPtr, NarrowBytes([]))]
      && o.ret == rep.ret
      && (Dword(wParam * 2) == 0 ==> o.writes == [] && o.result == rep.result)
      && (Dword(wParam * 2) != 0 && rep.result == 0 ==> o.writes == [Write(0, [0 as WChar])] && o.result == 0)
      && (Dword(wParam * 2) != 0 && rep.result != 0 ==>
            o.writes == [Write(0, w), Write(|w| - 1, [0 as WChar])] && o.result == |w| - 1)
    ensures !WritesWithin(o.writes, wParam) <==> |o.writes| == 2 && o.result == -1
    ensures Balanced(o.heap) && o.sent == []
  {
    match GetBuffer(STATIC_BYTES, Dword(wParam * 2), heapOk)
    case None => Skipped(result0)
    case Some(buf) =>
      var inv := Invocation(msg, wParam, ScratchPtr, NarrowBytes([]));
      var rep := proc(inv);
      if Dword(wParam * 2) != 0 then
        if rep.result != 0 then
          var w := GetTextUnits(env, wParam, rep);
          var ws := [Write(0, w), Write(|w| - 1, [0 as WChar])];
          assert WritesWithin(ws, wParam) <==> ws[1].at >= 0;
          Outcome(rep.ret, |w| - 1, [inv], [], Scoped(buf), ws)
        else
          Outcome(rep.ret, rep.result, [inv], [], Scoped(buf), [Write(rep.result, [0 as WChar])])
      else
        Outcome(rep.ret, rep.result, [inv], [], Scoped(buf), [])
  }

  /** A procedure that answers WM_GETTEXT with -1 (as return value and
      result) makes the code as written convert zero bytes and then store
      the terminator one unit before the caller's buffer. */
  lemma GetTextStoresBeforeBuffer(env: Env, proc: Proc, msg: nat, heapOk: bool, result0: int)
    requires env.toWide([]) == []
    requires proc(Invocation(msg, 1, ScratchPtr, NarrowBytes([]))).ret == -1
    requires proc(Invocation(msg, 1, ScratchPtr, NarrowBytes([]))).result == -1
    ensures GetTextAsWritten(env, proc, msg, 1, heapOk, result0).writes[1] == Write(-1, [0 as WChar])
    ensures !WritesWithin(GetTextAsWritten(env, proc, msg, 1, heapOk, result0).writes, 1)
  {
    var rep := proc(Invocation(msg, 1, ScratchPtr, NarrowBytes([])));
    assert Take(rep.narrow, Dword(rep.ret + 1)) == [];
    assert GetTextUnits(env, 1, rep) == [];
  }

  /** WM_GETTEXT / WM_ASKCBFORMATNAME with the terminator kept inside the
      caller's buffer: when nothing converts, the result is 0 and the zero
      goes to unit 0. */
  function GetText(env: Env, proc: Proc, msg: nat, wParam: nat, heapOk: bool, result0: int): (o: Outcome<WChar>)
    ensures o.calls == [] <==> STATIC_BYTES < Dword(wParam * 2) && !heapOk
    ensures o.calls == [] ==> o == Skipped(result0)
    ensures o.calls != [] ==>
      var rep := proc(o.calls[0]);
      var w := GetTextUnits(env, wParam, rep);
      && o.calls == [Invocation(msg, wParam, ScratchPtr, NarrowBytes([]))]
      && o.ret == rep.ret
      && (Dword(wParam * 2) == 0 ==> o.writes == [] && o.result == rep.result)
      && (Dword(wParam * 2) != 0 ==>
            && 0 <= o.result < wParam
            && |o.writes| >= 1
            && o.writes[|o.writes| - 1] == Write(o.result, [0 as WChar])
            && (rep.result == 0 ==> o.result == 0)
            && (rep.result != 0 && |w| > 0 ==> o.writes[0] == Write(0, w) && o.result == |w| - 1))
    ensures WritesWithin(o.writes, wParam)
    ensures Balanced(o.heap) && o.sent == []
  {
    match GetBuffer(STATIC_BYTES, Dword(wParam * 2), heapOk)
    case None => Skipped(result0)
    case Some(buf) =>
      var inv := Invocation(msg, wParam, ScratchPtr, NarrowBytes([]));
      var rep := proc(inv);
      if Dword(wParam * 2) != 0 then
        if rep.result != 0 then
          var w := GetTextUnits(env, wParam, rep);
          var last := if |w| > 0 then |w| - 1 else 0;
          Outcome(rep.ret, last, [inv], [], Scoped(buf), [Write(0, w), Write(last, [0 as WChar])])
        else
          Outcome(rep.ret, 0, [inv], [], Scoped(buf), [Write(0, [0 as WChar])])
      else
        Outcome(rep.ret, rep.result, [inv], [], Scoped(buf), [])
  }

  /** Where the code as written keeps its stores inside the buffer, the
      corrected branch behaves identically. */
  lemma GetTextAgreesWhenInBounds(env: Env, proc: Proc, msg: nat, wParam: nat, heapOk: bool, result0: int)
    requires WritesWithin(GetTextAsWritten(env, proc, msg, wParam, heapOk, result0).writes, wParam)
    ensures GetText(env, proc, msg, wParam, heapOk, result0) == GetTextAsWritten(env, proc, msg, wParam, heapOk, result0)
  {
    var o := GetTextAsWritten(env, proc, msg, wParam, heapOk, result0);
    if o.calls != [] && Dword(wParam * 2) != 0 && proc(o.calls[0]).result != 0 {
      assert o.writes[1].at == |GetTextUnits(env, wParam, proc(o.calls[0]))| - 1;
      assert 0 <= o.writes[1].at;
    }
  }

  /** WM_SETTEXT and the other input-string messages (winproc.c:542-564):
      the caller's string, terminator included, is converted whole into a
      narrow scratch buffer sized by RtlUnicodeToMultiByteSize. */
  function SetText(env: Env, proc: Proc, msg: nat, wParam: nat, lp: Param<WChar>,
                   heapOk: bool, result0: int): (o: Outcome<WChar>)
    requires lp.Text? || IsNull(lp)
    requires lp.Text? ==> CStrW(lp.s)
    ensures IsNull(lp) ==> o == PassThrough(proc, msg, wParam)
    ensures lp.Text? ==>
      && (o.calls == [] <==> STATIC_BYTES < |env.toNarrow(lp.s)| && !heapOk)
      && (o.calls == [] ==> o == Skipped(result0))
      && (o.calls != [] ==>
            && o.calls == [Invocation(msg, wParam, ScratchPtr, NarrowBytes(env.toNarrow(lp.s)))]
            && o.ret == proc(o.calls[0]).ret && o.result == proc(o.calls[0]).result)
    ensures Balanced(o.heap) && o.sent == [] && o.writes == []
  {
    if !lp.Text? then PassThrough(proc, msg, wParam)
    else
      var lenW := |lp.s| * 2;
      assert lenW / 2 == |lp.s|;
      assert Take(lp.s, |lp.s|) == lp.s;
      var lenA := UnicodeToMbSize(env, lp.s, lenW);
      var narrow := UnicodeToMbN(env, lenA, lp.s, lenW);
      assert narrow == env.toNarrow(lp.s);
      match GetBuffer(STATIC_BYTES, lenA, heapOk)
      case None => Skipped(result0)
      case Some(buf) =>
        var inv := Invocation(msg, wParam, ScratchPtr, NarrowBytes(narrow));
        Outcome(proc(inv).ret, proc(inv).result, [inv], [], Scoped(buf), [])
  }

  /** LB_ADDSTRING and the other list/combo string messages
      (winproc.c:526-541): converted as input strings only when lParam is
      non-NULL and the control keeps strings. */
  function ListString(env: Env, proc: Proc, win: Window, msg: nat, wParam: nat, lp: Param<WChar>,
                      heapOk: bool, result0: int): (o: Outcome<WChar>)
    requires !IsNull(lp) && TestLBForStr(win.style, msg) ==> lp.Text? && CStrW(lp.s)
    ensures IsNull(lp) || !TestLBForStr(win.style, msg) ==> o == PassThrough(proc, msg, wParam)
    ensures !IsNull(lp) && TestLBForStr(win.style, msg) ==>
      && (o.calls == [] <==> STATIC_BYTES < |env.toNarrow(lp.s)| && !heapOk)
      && (o.calls != [] ==> o.calls == [Invocation(msg, wParam, ScratchPtr, NarrowBytes(env.toNarrow(lp.s)))])
    ensures Balanced(o.heap) && o.sent == [] && o.writes == []
  {
    if IsNull(lp) || !TestLBForStr(win.style, msg) then PassThrough(proc, msg, wParam)
    else SetText(env, proc, msg, wParam, lp, heapOk, result0)
  }

  /** LB_GETTEXT / CB_GETLBTEXT (winproc.c:603-618): the procedure fills a
      fixed 512-byte buffer; its text through the terminator comes back
      converted into at most 1536 bytes (768 units), and the result is the
      unit count less one. */
  function ListGetText(env: Env, proc: Proc, win: Window, msg: nat, wParam: nat, lp: Param<WChar>): (o: Outcome<WChar>)
    ensures IsNull(lp) || !TestLBForStr(win.style, msg) ==> o == PassThrough(proc, msg, wParam)
    ensures !IsNull(lp) && TestLBForStr(win.style, msg) ==>
      var rep := proc(Invocation(msg, wParam, ScratchPtr, NarrowBytes([])));
      var text := env.toWide(Take(rep.narrow, StrLen(rep.narrow, 0 as Byte) + 1));
      && o.calls == [Invocation(msg, wParam, ScratchPtr, NarrowBytes([]))]
      && o.ret == rep.ret
      && (rep.result < 0 ==> o.result == rep.result && o.writes == [])
      && (rep.result >= 0 ==>
            && |o.writes| == 1 && o.writes[0].at == 0
            && o.writes[0].units <= text
            && |o.writes[0].units| == Min(768, |text|)
            && o.result == |o.writes[0].units| - 1)
    ensures o.heap == [] && o.sent == []
  {
    if IsNull(lp) || !TestLBForStr(win.style, msg) then PassThrough(proc, msg, wParam)
    else
      var inv := Invocation(msg, wParam, ScratchPtr, NarrowBytes([]));
      var rep := proc(inv);
      if rep.result >= 0 then
        var conv := MbToUnicodeN(env, 512 * 3, rep.narrow, StrLen(rep.narrow, 0 as Byte) + 1);
        Outcome(rep.ret, |conv| - 1, [inv], [], [], [Write(0, conv)])
      else
        Outcome(rep.ret, rep.result, [inv], [], [], [])
  }

  /** EM_GETLINE (winproc.c:620-637): the caller's buffer starts with a WORD
      holding its capacity `cap` in units; the narrow scratch buffer of
      cap*2 bytes starts with that byte count (as a WORD), and the line
      comes back converted into at most `cap` units, zero-terminated only
      when shorter than `cap`. */
  function GetLine(env: Env, proc: Proc, msg: nat, wParam: nat, cap: nat, heapOk: bool, result0: int): (o: Outcome<WChar>)
    requires cap < 0x10000
    ensures o.calls == [] <==> STATIC_BYTES < cap * 2 && !heapOk
    ensures o.calls == [] ==> o == Skipped(result0)
    ensures o.calls != [] ==>
      var rep := proc(o.calls[0]);
      var text := env.toWide(Take(rep.narrow, Dword(rep.result)));
      && o.calls == [Invocation(msg, wParam, ScratchPtr, NarrowBytes(LittleEndian(((cap * 2) % 0x10000) as WChar)))]
      && o.ret == rep.ret
      && (rep.result == 0 ==> o.writes == [] && o.result == 0)
      && (rep.result != 0 ==>
            && o.result == Min(cap, |text|)
            && 1 <= |o.writes| <= 2
            && o.writes[0] == Write(0, text[..o.result])
            && (o.result < cap <==> |o.writes| == 2)
            && (o.result < cap ==> o.writes[1] == Write(o.result, [0 as WChar])))
    ensures WritesWithin(o.writes, cap)
    ensures Balanced(o.heap) && o.sent == []
  {
    match GetBuffer(STATIC_BYTES, cap * 2, heapOk)
    case None => Skipped(result0)
    case Some(buf) =>
      var inv := Invocation(msg, wParam, ScratchPtr, NarrowBytes(LittleEndian(((cap * 2) % 0x10000) as WChar)));
      var rep := proc(inv);
      if rep.result != 0 then
        var conv := MbToUnicodeN(env, cap * 2, rep.narrow, Dword(rep.result));
        var term := if |conv| < cap then [Write(|conv|, [0 as WChar])] else [];
        Outcome(rep.ret, |conv|, [inv], [], Scoped(buf), [Write(0, conv)] + term)
      else
        Outcome(rep.ret, rep.result, [inv], [], Scoped(buf), [])
  }

  /** How many narrow bytes a character message carried inside a MSG may
      take: two for WM_IME_CHAR, one for the other character messages, and
      none (no mapping) for anything else. */
  function DlgCharBytes(message: nat): (n: nat)
    ensures n <= 2
    ensures n == 2 <==> message == WM_IME_CHAR
  {
    if message in {WM_CHAR, WM_DEADCHAR, WM_SYSCHAR, WM_SYSDEADCHAR} then 1
    else if message == WM_IME_CHAR then 2
    else 0
  }

  /** WM_GETDLGCODE (winproc.c:639-658): a MSG passed in lParam is copied
      and, when it carries a character message, its wParam is mapped to the
      narrow character; the procedure is always called. */
  function DlgCode(env: Env, proc: Proc, msg: nat, wParam: nat, lp: Param<WChar>, stale: Byte): (o: Outcome<WChar>)
    requires lp.MsgPtr? || IsNull(lp)
    ensures IsNull(lp) ==> o == PassThrough(proc, msg, wParam)
    ensures lp.MsgPtr? ==>
      var n := DlgCharBytes(lp.m.message);
      && |o.calls| == 1 && o.calls[0].msg == msg && o.calls[0].wParam == wParam
      && o.calls[0].lParam.MsgCopy?
      && o.calls[0].lParam.m == lp.m.(wParam := o.calls[0].lParam.m.wParam)
      && (n == 0 ==> o.calls[0].lParam.m == lp.m)
      && (n != 0 ==> o.calls[0].lParam.m.wParam == MapWParamCharWtoA(env, lp.m.wParam, n, stale))
      && o.ret == proc(o.calls[0]).ret && o.result == proc(o.calls[0]).result
    ensures o.heap == [] && o.sent == [] && o.writes == []
  {
    if IsNull(lp) then PassThrough(proc, msg, wParam)
    else
      var n := DlgCharBytes(lp.m.message);
      var m := if n == 0 then lp.m else lp.m.(wParam := MapWParamCharWtoA(env, lp.m.wParam, n, stale));
      var inv := Invocation(msg, wParam, MsgCopy(m), NoScratch);
      Outcome(proc(inv).ret, proc(inv).result, [inv], [], [], [])
  }

  /** WM_CHAR (winproc.c:660-669): the character is converted with room for
      two bytes and delivered one byte per call; the second call happens only
      for a double-byte character, and its reply is the one returned. When
      the conversion fails the first call carries the stale byte `stale`. */
  function CharPair(env: Env, proc: Proc, msg: nat, wParam: nat, stale: Byte): (o: Outcome<WChar>)
    ensures var bytes := CharToNarrowN(env, WCharOf(wParam), 2);
      && |o.calls| == (if |bytes| == 2 then 2 else 1)
      && o.calls[0] == Invocation(msg, FirstByte(bytes, stale) as nat, Same, NoScratch)
      && (forall i :: 0 <= i < |o.calls| ==> o.calls[i].lParam == Same && o.calls[i].msg == msg)
      && (|bytes| > 0 ==> forall i :: 0 <= i < |o.calls| ==> o.calls[i].wParam == bytes[i] as nat)
      && o.ret == proc(o.calls[|o.calls| - 1]).ret
      && o.result == proc(o.calls[|o.calls| - 1]).result
    ensures o.heap == [] && o.sent == [] && o.writes == []
  {
    var bytes := CharToNarrowN(env, WCharOf(wParam), 2);
    var first := Invocation(msg, FirstByte(bytes, stale) as nat, Same, NoScratch);
    if |bytes| == 2 then
      var second := Invocation(msg, bytes[1] as nat, Same, NoScratch);
      Outcome(proc(second).ret, proc(second).result, [first, second], [], [], [])
    else
      Outcome(proc(first).ret, proc(first).result, [first], [], [], [])
  }

  /** WM_DEADCHAR and the other single-byte character messages
      (winproc.c:671-678), and WM_IME_CHAR with up to two bytes
      (winproc.c:680-682): one call with the mapped character. */
  function Char(env: Env, proc: Proc, msg: nat, wParam: nat, len: nat, stale: Byte): (o: Outcome<WChar>)
    ensures o.calls == [Invocation(msg, MapWParamCharWtoA(env, wParam, len, stale), Same, NoScratch)]
    ensures HiWord(o.calls[0].wParam) == HiWord(wParam)
    ensures o.ret == proc(o.calls[0]).ret && o.result == proc(o.calls[0]).result
    ensures o.heap == [] && o.sent == [] && o.writes == []
  {
    PassThrough(proc, msg, MapWParamCharWtoA(env, wParam, len, stale))
  }

  /** What the caller's lParam must be under the policy of `msg`: the
      source dereferences it as that structure. */
  predicate Shaped(win: Window, msg: nat, lp: Param<WChar>)
  {
    match WtoAPolicy(msg)
    case CreatePolicy =>
      && lp.CreatePtr? && FieldOk(lp.cs.cls, 0 as WChar) && FieldOk(lp.cs.name, 0 as WChar)
      && (IsMdiChild(win.exStyle) ==> lp.cs.params.MdiChild?)
    case MdiCreatePolicy =>
      lp.MdiCreatePtr? && FieldOk(lp.mcs.title, 0 as WChar) && FieldOk(lp.mcs.cls, 0 as WChar)
    case SetTextPolicy => IsNull(lp) || (lp.Text? && CStrW(lp.s))
    case ListStringPolicy => !IsNull(lp) && TestLBForStr(win.style, msg) ==> lp.Text? && CStrW(lp.s)
    case GetLinePolicy => lp.LineBuf? && lp.cap < 0x10000
    case DlgCodePolicy => IsNull(lp) || lp.MsgPtr?
    case _ => true
  }

  /** WINPROC_CallProcWtoA (winproc.c:435-696): apply the policy of `msg`.
      `stale` stands for the uninitialised byte a failed character
      conversion leaves behind, `heapOk` for whether a heap scratch buffer
      can be had, `result0` for the LRESULT slot on entry. */
  function CallProcWtoA(env: Env, proc: Proc, win: Window, msg: nat, wParam: nat, lp: Param<WChar>,
                        stale: Byte, heapOk: bool, result0: int): (o: Outcome<WChar>)
    requires Shaped(win, msg, lp)
    ensures WtoAPolicy(msg) == PassPolicy ==> o == PassThrough(proc, msg, wParam)
    ensures WtoAPolicy(msg) == UntranslatedPolicy ==> o == Skipped(result0)
    ensures o.calls == [] ==> o == Skipped(result0)
    ensures o.sent == [] && |o.calls| <= 2
    ensures |o.calls| == 2 ==> WtoAPolicy(msg) == CharPairPolicy
    ensures o.writes != [] ==> WtoAPolicy(msg) in {GetTextPolicy, ListGetTextPolicy, GetLinePolicy}
    ensures forall i :: 0 <= i < |o.calls| ==> o.calls[i].msg == msg
    ensures WtoAPolicy(msg) == GetTextPolicy ==>
      (!WritesWithin(o.writes, wParam) <==> |o.writes| == 2 && o.result == -1)
    ensures Balanced(o.heap)
  {
    match WtoAPolicy(msg)
    case CreatePolicy => Create(env, proc, win, msg, wParam, lp.cs, heapOk, result0)
    case MdiCreatePolicy => MdiCreate(env, proc, msg, wParam, lp.mcs, heapOk, result0)
    case GetTextPolicy => GetTextAsWritten(env, proc, msg, wParam, heapOk, result0)
    case ListStringPolicy => ListString(env, proc, win, msg, wParam, lp, heapOk, result0)
    case SetTextPolicy => SetText(env, proc, msg, wParam, lp, heapOk, result0)
    case ListGetTextPolicy => ListGetText(env, proc, win, msg, wParam, lp)
    case GetLinePolicy => GetLine(env, proc, msg, wParam, lp.cap, heapOk, result0)
    case DlgCodePolicy => DlgCode(env, proc, msg, wParam, lp, stale)
    case CharPairPolicy => CharPair(env, proc, msg, wParam, stale)
    case CharPolicy => Char(env, proc, msg, wParam, 1, stale)
    case ImeCharPolicy => Char(env, proc, msg, wParam, 2, stale)
    case UntranslatedPolicy => Skipped(result0)
    case _ => PassThrough(proc, msg, wParam)
  }

  /** WINPROC_CallProcWtoA with WM_GETTEXT / WM_ASKCBFORMATNAME answered by
      the corrected GetText: every store stays inside the caller's buffer,
      and whenever the code as written already kept its stores inside, the
      two give the same outcome. */
  function CorrectedCallProcWtoA(env: Env, proc: Proc, win: Window, msg: nat, wParam: nat, lp: Param<WChar>,
                                 stale: Byte, heapOk: bool, result0: int): (o: Outcome<WChar>)
    requires Shaped(win, msg, lp)
    ensures WtoAPolicy(msg) != GetTextPolicy ==> o == CallProcWtoA(env, proc, win, msg, wParam, lp, stale, heapOk, result0)
    ensures WtoAPolicy(msg) == GetTextPolicy ==>
      && WritesWithin(o.writes, wParam)
      && (o.writes != [] ==> 0 <= o.result < wParam)
    ensures WritesWithin(CallProcWtoA(env, proc, win, msg, wParam, lp, stale, heapOk, result0).writes, wParam) ==>
      o == CallProcWtoA(env, proc, win, msg, wParam, lp, stale, heapOk, result0)
    ensures o.sent == [] && Balanced(o.heap)
  {
    if WtoAPolicy(msg) == GetTextPolicy then
      if WritesWithin(GetTextAsWritten(env, proc, msg, wParam, heapOk, result0).writes, wParam) then
        GetTextAgreesWhenInBounds(env, proc, msg, wParam, heapOk, result0);
        GetText(env, proc, msg, wParam, heapOk, result0)
      else
        GetText(env, proc, msg, wParam, heapOk, result0)
    else
      CallProcWtoA(env, proc, win, msg, wParam, lp, stale, heapOk, result0)
  }
}
