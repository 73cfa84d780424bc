/**
 * Message identifiers and window-style bits (values of the Win32 headers),
 * and the message descriptor tables the marshalling code switches on: which
 * marshalling policy each translator applies to a message, how the unpacker
 * treats it, and which messages answer through a result slot.
 */
module Messages {

  const WM_CREATE: nat := 0x0001
  const WM_SETTEXT: nat := 0x000C
  const WM_GETTEXT: nat := 0x000D
  const WM_GETTEXTLENGTH: nat := 0x000E
  const WM_PAINT: nat := 0x000F
  const WM_ERASEBKGND: nat := 0x0014
  const WM_WININICHANGE: nat := 0x001A
  const WM_DEVMODECHANGE: nat := 0x001B
  const WM_GETMINMAXINFO: nat := 0x0024
  const WM_ICONERASEBKGND: nat := 0x0027
  const WM_DRAWITEM: nat := 0x002B
  const WM_MEASUREITEM: nat := 0x002C
  const WM_DELETEITEM: nat := 0x002D
  const WM_CHARTOITEM: nat := 0x002F
  const WM_SETFONT: nat := 0x0030
  const WM_GETFONT: nat := 0x0031
  const WM_QUERYPARKICON: nat := 0x0036
  const WM_QUERYDRAGICON: nat := 0x0037
  const WM_COMPAREITEM: nat := 0x0039
  const WM_WINDOWPOSCHANGING: nat := 0x0046
  const WM_WINDOWPOSCHANGED: nat := 0x0047
  const WM_COPYDATA: nat := 0x004A
  const WM_NOTIFY: nat := 0x004E
  const WM_HELP: nat := 0x0053
  const WM_STYLECHANGING: nat := 0x007C
  const WM_STYLECHANGED: nat := 0x007D
  const WM_GETICON: nat := 0x007F
  const WM_SETICON: nat := 0x0080
  const WM_NCCREATE: nat := 0x0081
  const WM_NCCALCSIZE: nat := 0x0083
  const WM_NCPAINT: nat := 0x0085
  const WM_GETDLGCODE: nat := 0x0087
  const EM_GETSEL: nat := 0x00B0
  const EM_GETRECT: nat := 0x00B2
  const EM_SETRECT: nat := 0x00B3
  const EM_SETRECTNP: nat := 0x00B4
  const EM_REPLACESEL: nat := 0x00C2
  const EM_GETLINE: nat := 0x00C4
  const EM_SETTABSTOPS: nat := 0x00CB
  const EM_SETPASSWORDCHAR: nat := 0x00CC
  const SBM_GETRANGE: nat := 0x00E3
  const SBM_SETSCROLLINFO: nat := 0x00E9
  const SBM_GETSCROLLINFO: nat := 0x00EA
  const SBM_GETSCROLLBARINFO: nat := 0x00EB
  const WM_CHAR: nat := 0x0102
  const WM_DEADCHAR: nat := 0x0103
  const WM_SYSCHAR: nat := 0x0106
  const WM_SYSDEADCHAR: nat := 0x0107
  const WM_MENUCHAR: nat := 0x0120
  const WM_CTLCOLORMSGBOX: nat := 0x0132
  const WM_CTLCOLOREDIT: nat := 0x0133
  const WM_CTLCOLORLISTBOX: nat := 0x0134
  const WM_CTLCOLORBTN: nat := 0x0135
  const WM_CTLCOLORDLG: nat := 0x0136
  const WM_CTLCOLORSCROLLBAR: nat := 0x0137
  const WM_CTLCOLORSTATIC: nat := 0x0138
  const CB_GETEDITSEL: nat := 0x0140
  const CB_ADDSTRING: nat := 0x0143
  const CB_DIR: nat := 0x0145
  const CB_GETLBTEXT: nat := 0x0148
  const CB_GETLBTEXTLEN: nat := 0x0149
  const CB_INSERTSTRING: nat := 0x014A
  const CB_FINDSTRING: nat := 0x014C
  const CB_SELECTSTRING: nat := 0x014D
  const CB_GETDROPPEDCONTROLRECT: nat := 0x0152
  const CB_FINDSTRINGEXACT: nat := 0x0158
  const CB_MSGMAX: nat := 0x0165
  const LB_ADDSTRING: nat := 0x0180
  const LB_INSERTSTRING: nat := 0x0181
  const LB_GETTEXT: nat := 0x0189
  const LB_GETTEXTLEN: nat := 0x018A
  const LB_SELECTSTRING: nat := 0x018C
  const LB_DIR: nat := 0x018D
  const LB_FINDSTRING: nat := 0x018F
  const LB_GETSELITEMS: nat := 0x0191
  const LB_SETTABSTOPS: nat := 0x0192
  const LB_ADDFILE: nat := 0x0196
  const LB_GETITEMRECT: nat := 0x0198
  const LB_FINDSTRINGEXACT: nat := 0x01A2
  const WM_NEXTMENU: nat := 0x0213
  const WM_SIZING: nat := 0x0214
  const WM_MOVING: nat := 0x0216
  const WM_DEVICECHANGE: nat := 0x0219
  const WM_MDICREATE: nat := 0x0220
  const WM_MDIGETACTIVE: nat := 0x0229
  const WM_DROPOBJECT: nat := 0x022A
  const WM_QUERYDROPOBJECT: nat := 0x022B
  const WM_DRAGLOOP: nat := 0x022D
  const WM_DRAGSELECT: nat := 0x022E
  const WM_DRAGMOVE: nat := 0x022F
  const WM_IME_CHAR: nat := 0x0286
  const WM_PAINTCLIPBOARD: nat := 0x0309
  const WM_SIZECLIPBOARD: nat := 0x030B
  const WM_ASKCBFORMATNAME: nat := 0x030C
  const WM_PRINT: nat := 0x0317
  const WM_PRINTCLIENT: nat := 0x0318

  /** Style bits of combo boxes (CBS_*) and list boxes (LBS_*). */
  const CBS_OWNERDRAWFIXED: bv32 := 0x0010
  const CBS_OWNERDRAWVARIABLE: bv32 := 0x0020
  const CBS_HASSTRINGS: bv32 := 0x0200
  const LBS_OWNERDRAWFIXED: bv32 := 0x0010
  const LBS_OWNERDRAWVARIABLE: bv32 := 0x0020
  const LBS_HASSTRINGS: bv32 := 0x0040
  /** Extended style of an MDI child window. */
  const WS_EX_MDICHILD: bv32 := 0x0040

  /** Whether a window's extended style makes it an MDI child. */
  predicate IsMdiChild(exStyle: bv32) { exStyle & WS_EX_MDICHILD != 0 }

  // ---- message groups shared by the translators and the unpacker ----

  const CreateMsgs: set<nat> := {WM_NCCREATE, WM_CREATE}
  const GetTextMsgs: set<nat> := {WM_GETTEXT, WM_ASKCBFORMATNAME}
  /** List/combo messages whose lParam is a string only when the control keeps strings. */
  const ListStringMsgs: set<nat> :=
    {LB_ADDSTRING, LB_INSERTSTRING, LB_FINDSTRING, LB_FINDSTRINGEXACT, LB_SELECTSTRING,
     CB_ADDSTRING, CB_INSERTSTRING, CB_FINDSTRING, CB_FINDSTRINGEXACT, CB_SELECTSTRING}
  /** Messages whose lParam is an input string (or NULL). */
  const SetTextMsgs: set<nat> :=
    {WM_SETTEXT, WM_WININICHANGE, WM_DEVMODECHANGE, CB_DIR, LB_DIR, LB_ADDFILE, EM_REPLACESEL}
  const ListGetTextMsgs: set<nat> := {LB_GETTEXT, CB_GETLBTEXT}
  /** Character messages whose wParam is one character. */
  const CharMsgs: set<nat> :=
    {WM_CHARTOITEM, WM_MENUCHAR, WM_CHAR, WM_DEADCHAR, WM_SYSCHAR, WM_SYSDEADCHAR,
     EM_SETPASSWORDCHAR, WM_IME_CHAR}
  const LengthQueryMsgs: set<nat> := {WM_GETTEXTLENGTH, CB_GETLBTEXTLEN, LB_GETTEXTLEN}
  /** Clipboard-viewer messages the translators do not know how to convert. */
  const UntranslatedMsgs: set<nat> := {WM_PAINTCLIPBOARD, WM_SIZECLIPBOARD}

  /** The marshalling policy a translator applies to a message. */
  datatype Policy =
    | CreatePolicy          // creation record with class and window name
    | MdiCreatePolicy       // MDI creation record with title and class
    | GetTextPolicy         // output buffer whose capacity is wParam
    | ListStringPolicy      // input string when the list/combo keeps strings
    | SetTextPolicy         // input string
    | ListGetTextPolicy     // output buffer of unspecified size
    | GetLinePolicy         // output buffer whose first WORD holds its capacity
    | DlgCodePolicy         // pointer to a MSG whose character may need mapping
    | CharPolicy            // character in wParam
    | CharPairPolicy        // WM_CHAR towards narrow: one or two byte messages
    | ImeCharPolicy         // WM_IME_CHAR towards narrow: up to two bytes packed
    | LengthQueryPolicy     // text length, re-measured in the other encoding
    | UntranslatedPolicy    // logged, procedure not called
    | PassPolicy            // parameters passed through unchanged

  /** The policy of the narrow-to-wide translator (winproc.c:182-425). */
  function AtoWPolicy(msg: nat): Policy
  {
    if msg in CreateMsgs then CreatePolicy
    else if msg == WM_MDICREATE then MdiCreatePolicy
    else if msg in GetTextMsgs then GetTextPolicy
    else if msg in ListStringMsgs then ListStringPolicy
    else if msg in SetTextMsgs then SetTextPolicy
    else if msg in ListGetTextMsgs then ListGetTextPolicy
    else if msg == EM_GETLINE then GetLinePolicy
    else if msg == WM_GETDLGCODE then DlgCodePolicy
    else if msg in CharMsgs then CharPolicy
    else if msg in LengthQueryMsgs then LengthQueryPolicy
    else if msg in UntranslatedMsgs then UntranslatedPolicy
    else PassPolicy
  }

  /** The policy of the wide-to-narrow translator (winproc.c:443-693). */
  function WtoAPolicy(msg: nat): Policy
  {
    if msg in CreateMsgs then CreatePolicy
    else if msg == WM_MDICREATE then MdiCreatePolicy
    else if msg in GetTextMsgs then GetTextPolicy
    else if msg in ListStringMsgs then ListStringPolicy
    else if msg in SetTextMsgs then SetTextPolicy
    else if msg in ListGetTextMsgs then ListGetTextPolicy
    else if msg == EM_GETLINE then GetLinePolicy
    else if msg == WM_GETDLGCODE then DlgCodePolicy
    else if msg == WM_CHAR then CharPairPolicy
    else if msg == WM_IME_CHAR then ImeCharPolicy
    else if msg in CharMsgs then CharPolicy
    else if msg in UntranslatedMsgs then UntranslatedPolicy
    else PassPolicy
  }

  /** A list or combo box keeps item strings unless it is owner-drawn
      without the has-strings style. */
  predicate KeepsStrings(ownerDrawn: bool, hasStrings: bool) { !ownerDrawn || hasStrings }

  /** WINPROC_TestLBForStr: whether the lParam of a list/combo string
      message really is a string, from the control's style. Messages up to
      CB_MSGMAX are combo-box messages and read the CBS_* bits, the others
      the LBS_* bits. */
  function TestLBForStr(style: bv32, msg: nat): (r: bool)
    ensures msg <= CB_MSGMAX ==>
      (r <==> KeepsStrings(style & (CBS_OWNERDRAWFIXED | CBS_OWNERDRAWVARIABLE) != 0,
                           style & CBS_HASSTRINGS != 0))
    ensures msg > CB_MSGMAX ==>
      (r <==> KeepsStrings(style & (LBS_OWNERDRAWFIXED | LBS_OWNERDRAWVARIABLE) != 0,
                           style & LBS_HASSTRINGS != 0))
  {
    if msg <= CB_MSGMAX then
      (style & (CBS_OWNERDRAWFIXED | CBS_OWNERDRAWVARIABLE)) == 0 || (style & CBS_HASSTRINGS) != 0
    else
      (style & (LBS_OWNERDRAWFIXED | LBS_OWNERDRAWVARIABLE)) == 0 || (style & LBS_HASSTRINGS) != 0
  }

  /** The style bits TestLBForStr looks at for `msg`. */
  function ListStyleMask(msg: nat): bv32
  {
    if msg <= CB_MSGMAX then CBS_OWNERDRAWFIXED | CBS_OWNERDRAWVARIABLE | CBS_HASSTRINGS
    else LBS_OWNERDRAWFIXED | LBS_OWNERDRAWVARIABLE | LBS_HASSTRINGS
  }

  /** Style bits other than the owner-draw and has-strings bits of the
      control family do not change the answer; an owner-drawn control
      without strings is the only one whose lParam is not a string. */
  lemma TestLBForStrDependsOnMask(style: bv32, msg: nat)
    ensures TestLBForStr(style, msg) == TestLBForStr(style & ListStyleMask(msg), msg)
    ensures TestLBForStr(0, msg)
    ensures !TestLBForStr(0x0010, msg)
  {
  }

  /** The two directions treat every message alike except the length
      queries, which only the narrow-to-wide direction re-measures, and
      WM_CHAR and WM_IME_CHAR, which only the wide-to-narrow direction
      splits into bytes. */
  lemma PolicyTablesMirror(msg: nat)
    ensures AtoWPolicy(msg) != WtoAPolicy(msg) <==>
      msg in LengthQueryMsgs || msg == WM_CHAR || msg == WM_IME_CHAR
  {
  }
}
