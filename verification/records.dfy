/**
 * The structures a message parameter can point at, with pointers replaced
 * by what they designate. A record is generic over the type of its string
 * fields: the caller's record holds Field values (an integer resource id or
 * a C string), the record handed to a procedure holds Ref values (where the
 * string now lives).
 */
module Records {
  import opened Common

  /** A string field as the caller filled it in: an IS_INTRESOURCE value
      (which includes NULL) or a pointer to a C string, kept as its units
      including the terminator. */
  datatype Field<C> = IntRes(id: nat) | Chars(s: seq<C>)

  /** What a string field of a translated or unpacked record designates. */
  datatype Ref =
    | Id(id: nat)                 // the integer value, kept as it was
    | Caller                      // the caller's own, unconverted string
    | Scratch(offset: nat)        // the scratch buffer, `offset` destination units in
    | NameBuf(bytes: seq<Byte>)   // the 4-byte resource-name buffer of the wide-to-narrow creation case
    | Payload(offset: nat)        // a received message buffer, `offset` bytes past the fixed record

  /** lpCreateParams of a creation record. */
  datatype CreateParams<F> =
    | Opaque(value: int)                   // application data, never followed
    | MdiChild(mdi: MdiCreateRecord<F>)    // the MDICREATESTRUCT of an MDI child window
    | CallerRecord                         // still the caller's own, untranslated sub-record

  /** CREATESTRUCTA / CREATESTRUCTW. */
  datatype CreateRecord<F> = CreateRecord(
    params: CreateParams<F>, instance: int, menu: int, parent: int,
    cy: int, cx: int, y: int, x: int, style: int,
    name: F, cls: F, exStyle: int)

  /** MDICREATESTRUCTA / MDICREATESTRUCTW. */
  datatype MdiCreateRecord<F> = MdiCreateRecord(
    cls: F, title: F, owner: int, x: int, y: int, cx: int, cy: int, style: int, lParam: int)

  /** MSG, as carried by WM_GETDLGCODE. */
  datatype MsgRecord = MsgRecord(hwnd: int, message: nat, wParam: nat, lParam: int, time: int, ptX: int, ptY: int)

  /** What a caller's lParam is, as the message identifier dictates. */
  datatype Param<C> =
    | Value(v: int)                           // an integer, NULL, or a pointer this layer does not read
    | Text(s: seq<C>)                         // a C string, units including the terminator
    | LineBuf(cap: nat)                       // an EM_GETLINE buffer whose first WORD is its capacity
    | CreatePtr(cs: CreateRecord<Field<C>>)
    | MdiCreatePtr(mcs: MdiCreateRecord<Field<C>>)
    | MsgPtr(m: MsgRecord)

  predicate IsNull<C>(p: Param<C>) { p == Value(0) }

  /** A copied string field that was not relocated keeps its original value. */
  function Kept<C>(f: Field<C>): (r: Ref)
    ensures f.IntRes? <==> r.Id?
    ensures f.IntRes? ==> r.id == f.id
  {
    match f
    case IntRes(id) => Id(id)
    case Chars(_) => Caller
  }

  /** A field's string is well formed: terminated, with no embedded zero. */
  predicate FieldOk<C(==)>(f: Field<C>, nul: C)
  {
    f.Chars? ==> Terminated(f.s, nul)
  }

  /** The window state the translators query (GetWindowLong GWL_STYLE / GWL_EXSTYLE). */
  datatype Window = Window(style: bv32, exStyle: bv32)

  /** A field pointer after translation: into the scratch buffer at `offset`
      when the field was converted (`converted` destination bytes, non-zero),
      otherwise the value copied with the record. */
  function Relocate<C>(f: Field<C>, converted: nat, offset: nat): (r: Ref)
    ensures converted != 0 ==> r == Scratch(offset)
    ensures converted == 0 ==> r == Kept(f)
  {
    if converted != 0 then Scratch(offset) else Kept(f)
  }

  /** lpCreateParams copied unchanged: application data stays as it is, an
      MDI sub-record is still the caller's. */
  function PassParams<F>(p: CreateParams<F>): (r: CreateParams<Ref>)
    ensures p.Opaque? <==> r.Opaque?
    ensures p.Opaque? ==> r.value == p.value
  {
    match p
    case Opaque(v) => Opaque(v)
    case MdiChild(_) => CallerRecord
    case CallerRecord => CallerRecord
  }

  /** A copy of an MDI sub-record whose title and class are redirected. */
  function AliasMdi<F>(m: MdiCreateRecord<F>, title: Ref, cls: Ref): (r: MdiCreateRecord<Ref>)
    ensures r.title == title && r.cls == cls
    ensures SameMdiFixed(m, r)
  {
    MdiCreateRecord(cls, title, m.owner, m.x, m.y, m.cx, m.cy, m.style, m.lParam)
  }

  /** A copy of a creation record with new string fields and parameters. */
  function Rebuild<F>(cs: CreateRecord<F>, params: CreateParams<Ref>, name: Ref, cls: Ref): (r: CreateRecord<Ref>)
    ensures r.name == name && r.cls == cls && r.params == params
    ensures SameCreateFixed(cs, r)
  {
    CreateRecord(params, cs.instance, cs.menu, cs.parent, cs.cy, cs.cx, cs.y, cs.x, cs.style,
                 name, cls, cs.exStyle)
  }

  /** The fields of a creation record that are not strings or parameters agree. */
  predicate SameCreateFixed<F, G>(a: CreateRecord<F>, b: CreateRecord<G>)
  {
    && a.instance == b.instance && a.menu == b.menu && a.parent == b.parent
    && a.cy == b.cy && a.cx == b.cx && a.y == b.y && a.x == b.x
    && a.style == b.style && a.exStyle == b.exStyle
  }

  /** The fields of an MDI creation record that are not strings agree. */
  predicate SameMdiFixed<F, G>(a: MdiCreateRecord<F>, b: MdiCreateRecord<G>)
  {
    && a.owner == b.owner && a.x == b.x && a.y == b.y && a.cx == b.cx && a.cy == b.cy
    && a.style == b.style && a.lParam == b.lParam
  }
}
