/**
 * The cross-process unpacker (winproc.c unpack_message and string_size).
 * A message sent from another process arrives flattened: a fixed header
 * (the structure lParam pointed to) followed by a payload of bytes holding
 * the strings and sub-structures. Unpacking turns the pointer fields of the
 * header into references into the payload, points lParam (and sometimes
 * wParam) at the buffer, and refuses what cannot cross a process boundary.
 */
module Unpack {
  import opened Common
  import opened Buffers
  import opened Messages
  import opened Records

  /** IS_INTRESOURCE: a pointer-sized value with its upper bits clear is an
      integer resource identifier, not an address. */
  predicate IsIntResource(v: nat)
  {
    v < 0x10000
  }

  /** The 16-bit code units a byte payload holds; an odd last byte is not
      part of any unit. */
  function Units(p: seq<Byte>): (u: seq<WChar>)
    ensures |u| == |p| / 2
    decreases |p|
  {
    if |p| < 2 then [] else [Unit(p[0], p[1])] + Units(p[2..])
  }

  /** Unit k of a payload is made of its bytes 2k (low) and 2k+1 (high). */
  lemma {:induction false} UnitAt(p: seq<Byte>, k: nat)
    requires k < |p| / 2
    ensures Units(p)[k] == Unit(p[2 * k], p[2 * k + 1])
    decreases k
  {
    if k > 0 {
      UnitAt(p[2..], k - 1);
      assert p[2..][2 * (k - 1)] == p[2 * k];
      assert p[2..][2 * (k - 1) + 1] == p[2 * k + 1];
    }
  }

  /** A code unit is the terminator exactly when both its bytes are zero. */
  lemma UnitIsZero(lo: Byte, hi: Byte)
    ensures Unit(lo, hi) == 0 <==> lo == 0 && hi == 0
  {
  }

  /** The payload starts with a terminated string of the given width. */
  predicate HoldsString(p: seq<Byte>, ansi: bool)
  {
    if ansi then 0 as Byte in p else 0 as WChar in Units(p)
  }

  /** string_size (winproc.c:741-744): the bytes taken by the string at the
      start of the payload, its terminator included: strlen+1 for narrow
      text, (wcslen+1)*2 for wide text. */
  function StringSize(p: seq<Byte>, ansi: bool): (n: nat)
    requires HoldsString(p, ansi)
    ensures 0 < n <= |p|
    ensures ansi ==> Terminated(p[..n], 0 as Byte)
    ensures !ansi ==> n % 2 == 0 && Terminated(Units(p)[..n / 2], 0 as WChar)
    ensures !ansi ==> p[n - 2] == 0 && p[n - 1] == 0
  {
    if ansi then
      StrLen(p, 0 as Byte) + 1
    else
      var u := Units(p);
      var k := StrLen(u, 0 as WChar);
      UnitAt(p, k);
      UnitIsZero(p[2 * k], p[2 * k + 1]);
      (k + 1) * 2
  }

  /** The units of two byte runs laid end to end, the first of even
      length, are the units of each in turn. */
  lemma {:induction false} UnitsOfConcat(a: seq<Byte>, b: seq<Byte>)
    requires |a| % 2 == 0
    ensures Units(a + b) == Units(a) + Units(b)
    decreases |a|
  {
    if |a| == 0 {
      assert a + b == b;
    } else {
      assert (a + b)[2..] == a[2..] + b;
      UnitsOfConcat(a[2..], b);
    }
  }

  /** A string as the sending side packs it: narrow, terminated; or wide,
      an even number of bytes whose units are terminated. */
  predicate PackedString(s: seq<Byte>, ansi: bool)
  {
    if ansi then CStrA(s) else |s| % 2 == 0 && CStrW(Units(s))
  }

  /** string_size finds the end of the first packed string exactly, so the
      next string starts where the unpacker looks for it. */
  lemma StringSizeOfPacked(first: seq<Byte>, rest: seq<Byte>, ansi: bool)
    requires PackedString(first, ansi)
    ensures HoldsString(first + rest, ansi)
    ensures StringSize(first + rest, ansi) == |first|
    ensures (first + rest)[|first|..] == rest
  {
    var p := first + rest;
    if ansi {
      assert p[|first| - 1] == 0;
    } else {
      UnitsOfConcat(first, rest);
      var u := Units(first);
      assert Units(p)[|u| - 1] == 0;
    }
  }

  /** The fixed part of a flattened message, as far as unpacking looks at
      it; `F` is a raw pointer value before unpacking and a Ref after. */
  datatype Header<F> =
    | CreateHeader(name: F, cls: F)             // CREATESTRUCT lpszName, lpszClass
    | MdiCreateHeader(cls: F, title: F)         // MDICREATESTRUCT szClass, szTitle
    | CalcSizeHeader(lppos: F)                  // NCCALCSIZE_PARAMS lppos
    | CopyDataHeader(data: F)                   // COPYDATASTRUCT lpData
    | PlainHeader                               // nothing to relocate

  /** A message as received: its parameters, header and payload. */
  datatype Packed = Packed(msg: nat, wParam: nat, lParam: nat, header: Header<nat>, payload: seq<Byte>)

  /** Where a parameter points after unpacking. */
  datatype Loc =
    | Raw(v: nat)             // the value as it came
    | InBuffer(offset: nat)   // the unpack buffer, `offset` bytes in

  /** The result of unpack_message: whether the message may be delivered,
      the parameters and header as they now stand, and the buffer (which a
      query for WM_MDIGETACTIVE may have replaced with a heap block, or
      with Null when that block could not be had). */
  datatype Unpacked = Unpacked(ok: bool, wParam: Loc, lParam: Loc, header: Header<Ref>, buffer: Buf)

  /** How unpack_message treats a message. */
  datatype Treatment =
    | Relink          // pointer fields of the header move into the payload
    | Pair            // wParam and lParam point at two adjacent DWORDs
    | Flat            // lParam points at the buffer
    | ActiveQuery     // WM_MDIGETACTIVE: needs room for a BOOL
    | DeviceChange    // WM_DEVICECHANGE: may carry a DEV_BROADCAST_HDR
    | NcPaint         // WM_NCPAINT: only the whole-window regions 0 and 1
    | Paint           // WM_PAINT: only without an HDC
    | Reject          // carries a handle or pointer that cannot cross over
    | Untouched       // nothing to unpack

  /** Messages whose data is flat and needs only lParam pointed at it
      (winproc.c:813-859). */
  predicate FlatMsg(msg: nat)
  {
    msg in {
    WM_GETTEXT, WM_ASKCBFORMATNAME, WM_WININICHANGE, WM_SETTEXT, WM_DEVMODECHANGE,
    CB_DIR, LB_DIR, LB_ADDFILE, EM_REPLACESEL, WM_GETMINMAXINFO, WM_DRAWITEM,
    WM_MEASUREITEM, WM_DELETEITEM, WM_COMPAREITEM, WM_WINDOWPOSCHANGING,
    WM_WINDOWPOSCHANGED, WM_HELP, WM_STYLECHANGING, WM_STYLECHANGED, WM_GETDLGCODE,
    SBM_SETSCROLLINFO, SBM_GETSCROLLINFO, SBM_GETSCROLLBARINFO, EM_GETRECT,
    LB_GETITEMRECT, CB_GETDROPPEDCONTROLRECT, EM_SETRECT, EM_SETRECTNP, EM_GETLINE,
    EM_SETTABSTOPS, LB_SETTABSTOPS, CB_ADDSTRING, CB_INSERTSTRING, CB_FINDSTRING,
    CB_FINDSTRINGEXACT, CB_SELECTSTRING, LB_ADDSTRING, LB_INSERTSTRING, LB_FINDSTRING,
    LB_FINDSTRINGEXACT, LB_SELECTSTRING, CB_GETLBTEXT, LB_GETTEXT, LB_GETSELITEMS,
    WM_NEXTMENU, WM_SIZING, WM_MOVING
    }
  }

  /** Messages carrying an HFONT, HDC, HGLOBAL, HICON or raw pointer
      (winproc.c:897-914, WM_PAINT with an HDC aside). */
  predicate HandleMsg(msg: nat)
  {
    msg in {
    WM_SETFONT, WM_GETFONT, WM_ERASEBKGND, WM_ICONERASEBKGND, WM_CTLCOLORMSGBOX,
    WM_CTLCOLOREDIT, WM_CTLCOLORLISTBOX, WM_CTLCOLORBTN, WM_CTLCOLORDLG,
    WM_CTLCOLORSCROLLBAR, WM_CTLCOLORSTATIC, WM_PRINT, WM_PRINTCLIENT,
    WM_PAINTCLIPBOARD, WM_SIZECLIPBOARD, WM_GETICON, WM_SETICON, WM_QUERYDRAGICON,
    WM_QUERYPARKICON, WM_DROPOBJECT, WM_QUERYDROPOBJECT, WM_DRAGLOOP, WM_DRAGSELECT,
    WM_DRAGMOVE
    }
  }

  /** Messages answered through a pair of DWORDs (winproc.c:785-793). */
  predicate PairMsg(msg: nat)
  {
    msg in {EM_GETSEL, SBM_GETRANGE, CB_GETEDITSEL}
  }

  /** Messages whose header holds pointers into the payload. */
  predicate RelinkMsg(msg: nat)
  {
    msg in {WM_NCCREATE, WM_CREATE, WM_NCCALCSIZE, WM_COPYDATA, WM_MDICREATE}
  }

  function TreatmentOf(msg: nat): (t: Treatment)
    ensures t == Relink <==> RelinkMsg(msg)
    ensures t == Pair <==> PairMsg(msg)
    ensures t == Flat <==> FlatMsg(msg)
    ensures t == Reject <==> msg == WM_NOTIFY || HandleMsg(msg)
    ensures t == Untouched <==>
      && !RelinkMsg(msg) && !PairMsg(msg) && !FlatMsg(msg) && !HandleMsg(msg)
      && msg !in {WM_NOTIFY, WM_MDIGETACTIVE, WM_DEVICECHANGE, WM_NCPAINT, WM_PAINT}
  {
    if RelinkMsg(msg) then Relink
    else if PairMsg(msg) then Pair
    else if FlatMsg(msg) then Flat
    else if msg == WM_MDIGETACTIVE then ActiveQuery
    else if msg == WM_DEVICECHANGE then DeviceChange
    else if msg == WM_NOTIFY then Reject
    else if msg == WM_NCPAINT then NcPaint
    else if msg == WM_PAINT then Paint
    else if HandleMsg(msg) then Reject
    else Untouched
  }

  /** sizeof(DEV_BROADCAST_HDR): three DWORDs. */
  const DEV_BROADCAST_HDR_SIZE: nat := 12
  /** sizeof(BOOL). */
  const BOOL_SIZE: nat := 4
  /** sizeof(DWORD): the second value of an EM_GETSEL-style pair sits one
      DWORD into the buffer. */
  const DWORD_SIZE: nat := 4
  /** The bit of a WM_DEVICECHANGE event code saying lParam holds a
      DEV_BROADCAST_HDR. */
  const DEVICE_DATA_BIT: nat := 0x8000

  /** The header matches the message and every string it points at is in
      the payload, terminated: what the sending side guarantees. */
  predicate WellPacked(m: Packed, ansi: bool)
  {
    match TreatmentOf(m.msg)
    case Relink =>
      if m.msg in {WM_NCCREATE, WM_CREATE} then
        && m.header.CreateHeader?
        && (!IsIntResource(m.header.name) ==> HoldsString(m.payload, ansi))
      else if m.msg == WM_MDICREATE then
        && m.header.MdiCreateHeader?
        && (!IsIntResource(m.header.cls) ==> HoldsString(m.payload, ansi))
      else if m.msg == WM_NCCALCSIZE then m.header.CalcSizeHeader?
      else m.header.CopyDataHeader?
    case _ => true
  }

  /** A pointer field before and after relocation: an integer resource
      stays as it was, a string is found `offset` bytes into the payload. */
  function Relocated(v: nat, offset: nat): (r: Ref)
    ensures IsIntResource(v) <==> r.Id?
    ensures IsIntResource(v) ==> r == Id(v)
    ensures !IsIntResource(v) ==> r == Payload(offset)
  {
    if IsIntResource(v) then Id(v) else Payload(offset)
  }

  /** The header with its pointers unchanged. */
  function Unmoved(h: Header<nat>): (r: Header<Ref>)
    ensures h.PlainHeader? <==> r.PlainHeader?
  {
    match h
    case CreateHeader(name, cls) => CreateHeader(Id(name), Id(cls))
    case MdiCreateHeader(cls, title) => MdiCreateHeader(Id(cls), Id(title))
    case CalcSizeHeader(lppos) => CalcSizeHeader(Id(lppos))
    case CopyDataHeader(data) => CopyDataHeader(Id(data))
    case PlainHeader => PlainHeader
  }

  /** The header fields of a relinked message after unpacking
      (winproc.c:758-784, 794-812): creation records take the name first
      and the class after it, MDI creation records the class first and the
      title after it; NCCALCSIZE_PARAMS gets its WINDOWPOS right after the
      header when wParam is set; a non-NULL COPYDATASTRUCT lpData points
      right after the header. */
  function RelinkHeader(m: Packed, ansi: bool): (h: Header<Ref>)
    requires TreatmentOf(m.msg) == Relink && WellPacked(m, ansi)
  {
    match m.header
    case CreateHeader(name, cls) =>
      var next := if IsIntResource(name) then 0 else StringSize(m.payload, ansi);
      CreateHeader(Relocated(name, 0), Relocated(cls, next))
    case MdiCreateHeader(cls, title) =>
      var next := if IsIntResource(cls) then 0 else StringSize(m.payload, ansi);
      MdiCreateHeader(Relocated(cls, 0), Relocated(title, next))
    case CalcSizeHeader(lppos) =>
      CalcSizeHeader(if m.wParam != 0 then Payload(0) else Id(lppos))
    case CopyDataHeader(data) =>
      CopyDataHeader(if data != 0 then Payload(0) else Id(0))
  }

  /** The default exit of unpack_message (winproc.c:917-919): refuse a
      buffer shorter than `minsize`, otherwise point lParam at it. */
  function Settle(m: Packed, h: Header<Ref>, buffer: Buf, size: nat, minsize: nat): (u: Unpacked)
    ensures u.ok <==> minsize <= size
    ensures u.ok ==> u.lParam == InBuffer(0)
    ensures u.wParam == Raw(m.wParam) && u.header == h && u.buffer == buffer
  {
    if size < minsize then Unpacked(false, Raw(m.wParam), Raw(m.lParam), h, buffer)
    else Unpacked(true, Raw(m.wParam), InBuffer(0), h, buffer)
  }

  /** unpack_message (winproc.c:751-920). `buffer` holds the header and
      payload and is `size` bytes long; `heapOk` says whether a heap block
      can be had when the buffer must grow. */
  function UnpackMessage(m: Packed, buffer: Buf, size: nat, ansi: bool, heapOk: bool): (u: Unpacked)
    requires WellPacked(m, ansi)
    ensures TreatmentOf(m.msg) == Reject ==> !u.ok
    ensures TreatmentOf(m.msg) == Untouched ==>
      u == Unpacked(true, Raw(m.wParam), Raw(m.lParam), Unmoved(m.header), buffer)
    ensures TreatmentOf(m.msg) == Pair ==> u.ok && u.wParam == InBuffer(0) && u.lParam == InBuffer(DWORD_SIZE)
    ensures TreatmentOf(m.msg) in {Relink, Flat} ==> u.ok && u.lParam == InBuffer(0) && u.wParam == Raw(m.wParam)
    ensures TreatmentOf(m.msg) == Relink ==> u.header == RelinkHeader(m, ansi)
    ensures m.msg == WM_DEVICECHANGE ==>
      (u.ok <==> (m.wParam / DEVICE_DATA_BIT) % 2 == 0 || DEV_BROADCAST_HDR_SIZE <= size)
    ensures m.msg == WM_DEVICECHANGE && (m.wParam / DEVICE_DATA_BIT) % 2 == 1 && u.ok ==> u.lParam == InBuffer(0)
    ensures m.msg == WM_NCPAINT ==> (u.ok <==> m.wParam <= 1)
    ensures m.msg == WM_PAINT ==> (u.ok <==> m.wParam == 0)
    ensures m.msg == WM_MDIGETACTIVE ==>
      && (u.ok <==> m.lParam == 0 || (if size < BOOL_SIZE then heapOk else buffer != Null))
      && (m.lParam != 0 && u.ok ==> u.lParam == InBuffer(0))
      && (m.lParam != 0 && size < BOOL_SIZE && heapOk ==> u.buffer == Heap(BOOL_SIZE))
      && (m.lParam != 0 && size < BOOL_SIZE && !heapOk ==> u.buffer == Null)
      && (m.lParam != 0 && u.ok && Capacity(buffer) >= size ==> Capacity(u.buffer) >= BOOL_SIZE)
    ensures u.buffer != buffer ==> m.msg == WM_MDIGETACTIVE && (u.buffer == Heap(BOOL_SIZE) || u.buffer == Null)
    ensures !u.ok ==> u.lParam == Raw(m.lParam) && (u.buffer == buffer || u.buffer == Null)
  {
    var same := Unpacked(true, Raw(m.wParam), Raw(m.lParam), Unmoved(m.header), buffer);
    var refused := same.(ok := false);
    match TreatmentOf(m.msg)
    case Relink => Settle(m, RelinkHeader(m, ansi), buffer, size, 0)
    case Pair => Unpacked(true, InBuffer(0), InBuffer(DWORD_SIZE), Unmoved(m.header), buffer)
    case Flat => Settle(m, Unmoved(m.header), buffer, size, 0)
    case ActiveQuery =>
      if m.lParam == 0 then same
      else
        var b := GetBufferSpace(buffer, BOOL_SIZE, size, heapOk);
        if b == Null then refused.(buffer := Null)
        else Settle(m, Unmoved(m.header), b, size, 0)
    case DeviceChange =>
      if (m.wParam / DEVICE_DATA_BIT) % 2 == 0 then same
      else Settle(m, Unmoved(m.header), buffer, size, DEV_BROADCAST_HDR_SIZE)
    case NcPaint => if m.wParam <= 1 then same else refused
    case Paint => if m.wParam == 0 then same else refused
    case Reject => refused
    case Untouched => same
  }

  /** The creation strings the sending side packed back to back come out
      where they were put: the name right after the header, the class
      right after the name's terminator. */
  lemma CreateStringsRelinked(m: Packed, first: seq<Byte>, rest: seq<Byte>, ansi: bool, buffer: Buf,
                               size: nat, heapOk: bool)
    requires m.msg in {WM_NCCREATE, WM_CREATE} && m.header.CreateHeader?
    requires !IsIntResource(m.header.name) && !IsIntResource(m.header.cls)
    requires PackedString(first, ansi) && m.payload == first + rest
    ensures WellPacked(m, ansi)
    ensures var u := UnpackMessage(m, buffer, size, ansi, heapOk);
      && u.ok
      && u.header == CreateHeader(Payload(0), Payload(|first|))
      && m.payload[|first|..] == rest
  {
    StringSizeOfPacked(first, rest, ansi);
  }

  /** The MDI creation strings come out the other way round: the class
      right after the header, the title right after the class. */
  lemma MdiCreateStringsRelinked(m: Packed, first: seq<Byte>, rest: seq<Byte>, ansi: bool, buffer: Buf,
                                  size: nat, heapOk: bool)
    requires m.msg == WM_MDICREATE && m.header.MdiCreateHeader?
    requires !IsIntResource(m.header.cls) && !IsIntResource(m.header.title)
    requires PackedString(first, ansi) && m.payload == first + rest
    ensures WellPacked(m, ansi)
    ensures var u := UnpackMessage(m, buffer, size, ansi, heapOk);
      && u.ok
      && u.header == MdiCreateHeader(Payload(0), Payload(|first|))
  {
    StringSizeOfPacked(first, rest, ansi);
  }
}
