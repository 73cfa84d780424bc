# Message marshalling in Wine's user32 window procedures

This project is a Dafny model of the message-marshalling core of Wine's
`dlls/user32/winproc.c`, with proofs about that model. When a window message
crosses an encoding boundary, `WINPROC_CallProcAtoW` and
`WINPROC_CallProcWtoA` translate it. A narrow (ANSI) caller may reach a wide
(Unicode) window procedure, or the other way round. The translators convert
the strings the message carries into a scratch buffer. For output buffers
they convert the answer back and clamp it to the caller's buffer. They map
character codes, and they skip the messages nobody knows how to translate.
`dispatch_win_proc_params` picks the route. A message that arrives from
another process is first flattened by the sender and then rebuilt by
`unpack_message`. `User32CallWindowProc` then sends the result back through
exactly one reply channel.

The model is functional:

- **Modules.** Common, Buffers, Codepage, Messages, Records, Trace, CharMap,
  AtoW, WtoA, Unpack, Dispatch and Properties.
- **Pointers** are offsets. A string the translator converted is
  `Scratch(offset)` in destination units. A string in a received message
  is `Payload(offset)` past the header. An integer resource is `Id(value)`.
- **The window procedure** is a function value from an `Invocation` (the
  message, wParam, the rebuilt lParam record and the scratch contents) to a
  `Reply` (return value, LRESULT, and what it wrote into the scratch
  buffer). A translator returns an `Outcome`. That is the calls it made, the
  messages sent with SendMessageW, its heap allocations and releases, and
  its stores into the caller's buffer.
- **Code-page conversion** is a set of function values in `Env`. The
  `Rtl*N` routines are the full conversion cut to exactly the destination
  capacity, even between the two bytes of a double-byte character.
- **Integer width.** The DWORD arithmetic of the source wraps modulo 2^32
  (`Common.Dword`).

## Model

| member | source | states |
|---|---|---|
| Buffers.GetBuffer | dlls/user32/winproc.c:31-35 | the static buffer is returned exactly when it is at least as large as the need (so a need of 0 never allocates); otherwise a heap block of the needed size, or failure exactly when the heap refuses; any buffer returned holds at least the need |
| Buffers.FreeBuffer | dlls/user32/winproc.c:37-40 | only a heap block is released, so the static buffer is never freed |
| Buffers.AcquireReleaseBalanced | dlls/user32/winproc.c:31-40 | a get_buffer/free_buffer pair leaves the heap balanced, allocates once exactly when the need exceeds the static size, and frees nothing for the static buffer |
| Buffers.GetBufferSpace | dlls/user32/winproc.c:732-739 | when the current buffer held the previous size, a non-NULL result has room for the requested size; the buffer is replaced only when the previous size is too small, then by a heap block of exactly the requested size, and it becomes NULL exactly when that allocation fails (or when it was NULL and is kept) |
| CharMap.MapWParamCharWtoA | dlls/user32/winproc.c:88-99 | the high word of wParam is preserved and the result fits a DWORD; a two-byte character packs the lead byte into bits 8-15 and the trail byte into bits 0-7 of the low word, otherwise the low word is the first byte (the stale one when the conversion fails) |
| CharMap.CharPairRoundTrip | dlls/user32/winproc.c:88-99 | the packed low word gives back both bytes of a two-byte character, and a single-byte character is the low word itself |
| Messages.TestLBForStr | dlls/user32/winproc.c:158-166 | messages up to CB_MSGMAX test the combo-box style bits and later ones the list-box bits: the item is a string unless the control is owner-drawn without HASSTRINGS |
| Messages.TestLBForStrDependsOnMask | dlls/user32/winproc.c:158-166 | the decision depends only on the owner-draw and HASSTRINGS bits; a plain control keeps strings and an owner-drawn one without HASSTRINGS does not |
| Messages.PolicyTablesMirror | dlls/user32/winproc.c:174-696 | the two translators treat a message differently exactly for the length queries and for WM_CHAR and WM_IME_CHAR |
| AtoW.Create | dlls/user32/winproc.c:184-229 | the class is converted to scratch unit 0 and the name right after it; integer resources keep their value and add no length; an MDI child's copied sub-record aliases the converted title and class; allocation failure skips the call |
| AtoW.MdiCreate | dlls/user32/winproc.c:231-267 | the title is converted to scratch unit 0 and the class right after it; integer resources are kept; allocation failure skips the call |
| AtoW.GetText | dlls/user32/winproc.c:269-288 | with wParam non-zero, at most wParam-1 converted bytes are stored, followed by a zero at the result, and the result is the stored length; a zero result from the procedure gives an empty string and result 0; with wParam 0 nothing is stored; allocation failure skips the call |
| AtoW.ListString | dlls/user32/winproc.c:290-305 | lParam is converted as a string exactly when it is non-NULL and the control keeps strings, otherwise passed through unchanged |
| AtoW.SetText | dlls/user32/winproc.c:306-328 | a non-NULL string is delivered whole in its wide form, a NULL lParam is passed through, and allocation failure skips the call |
| AtoW.ListGetText | dlls/user32/winproc.c:330-346 | on a non-negative result the wide text through its terminator is stored converted, cut to 1536 bytes, and the result becomes the stored length less one (as a DWORD); a negative result stores nothing |
| AtoW.GetLine | dlls/user32/winproc.c:348-365 | the scratch buffer starts with the capacity; the line comes back converted into at most the capacity, with a terminator exactly when shorter, and never beyond the capacity |
| AtoW.DlgCode | dlls/user32/winproc.c:367-375 | a MSG in lParam is copied with only its wParam mapped; the procedure is not called when the mapping refuses |
| AtoW.Char | dlls/user32/winproc.c:377-387 | the character is mapped with the caller's mapping mode and the procedure called only when the mapping yields a character |
| AtoW.LengthQuery | dlls/user32/winproc.c:389-414 | after a non-negative wide length, the text is fetched into length+1 units (through the procedure or through SendMessageW) and the result becomes its narrow size; a negative length or a failed allocation keeps the first answer |
| AtoW.CallProcAtoW | dlls/user32/winproc.c:174-427 | unknown messages pass through, unsupported clipboard messages skip the call, at most two calls are made and two only for a length query, stores into the caller's buffer happen only for the output-buffer messages, and the heap stays balanced |
| WtoA.ResNameBytes | dlls/user32/winproc.c:462-470 | a name starting with 0xffff becomes the four bytes 0xff, the resource number's low byte, its high byte, 0 |
| WtoA.Create | dlls/user32/winproc.c:445-503 | the class is converted to scratch byte 0 and the name right after it, a numbered resource name goes to its own four-byte buffer, integer resources are kept, an MDI child's sub-record aliases the converted strings, and allocation failure skips the call |
| WtoA.GetTextAsWritten | dlls/user32/winproc.c:505-524 | when wParam*2 is non-zero and the procedure's result is non-zero, the converted units are stored and a zero is stored at (units converted)-1, which is also the result; the stores leave the caller's buffer exactly when both are made and the result is -1 |
| WtoA.GetTextStoresBeforeBuffer | dlls/user32/winproc.c:505-524 | a procedure answering -1 with a non-zero result makes that zero land at unit -1, outside the caller's buffer |
| WtoA.GetText | dlls/user32/winproc.c:505-524 | the corrected branch: every store stays within the caller's wParam units, the terminator is stored at the result, and a zero result from the procedure gives an empty string |
| WtoA.GetTextAgreesWhenInBounds | dlls/user32/winproc.c:505-524 | whenever the code as written keeps its stores inside the buffer, the corrected branch behaves identically |
| WtoA.ListString | dlls/user32/winproc.c:526-541 | lParam is converted as a string exactly when it is non-NULL and the control keeps strings |
| WtoA.SetText | dlls/user32/winproc.c:542-564 | a non-NULL string is delivered whole in its narrow form, a NULL lParam is passed through, and allocation failure skips the call |
| WtoA.MdiCreate | dlls/user32/winproc.c:566-601 | the title is converted to scratch byte 0 and the class right after it; integer resources are kept; allocation failure skips the call |
| WtoA.ListGetText | dlls/user32/winproc.c:603-618 | on a non-negative result the narrow text through its terminator is stored converted, cut to 768 units, and the result becomes the stored length less one |
| WtoA.GetLine | dlls/user32/winproc.c:620-637 | the scratch buffer starts with the byte capacity as a little-endian WORD; the line comes back converted into at most the capacity, with a terminator exactly when shorter |
| WtoA.DlgCode | dlls/user32/winproc.c:639-658 | a MSG in lParam is copied; a character message in it has its wParam mapped with one byte (two for WM_IME_CHAR), any other message is left as is |
| WtoA.CharPair | dlls/user32/winproc.c:660-669 | WM_CHAR calls the procedure once per narrow byte, first byte first, twice only for a two-byte character, and returns the last call's answer |
| WtoA.Char | dlls/user32/winproc.c:671-682 | the other character messages make one call with the mapped character, high word preserved |
| WtoA.CallProcWtoA | dlls/user32/winproc.c:435-696 | unknown messages pass through, unsupported clipboard messages skip the call, only WM_CHAR calls twice, every call carries the original message, and the heap stays balanced; WM_GETTEXT runs as written, and its stores leave the caller's wParam units exactly when it stores twice and reports -1 |
| WtoA.CorrectedCallProcWtoA | dlls/user32/winproc.c:435-696 | the translator with the corrected WM_GETTEXT branch: every other message is translated as written, WM_GETTEXT stores stay within wParam units with the result inside them, and whenever the code as written keeps its stores inside the buffer the two outcomes are identical |
| Unpack.UnitAt | dlls/user32/winproc.c:741-744 | wcslen reads the payload in 16-bit units: unit k is made of byte 2k (low) and byte 2k+1 (high) |
| Unpack.StringSize | dlls/user32/winproc.c:741-744 | the size covers exactly the payload's first string and its terminator: no earlier terminator, one byte per narrow unit and two per wide unit |
| Unpack.StringSizeOfPacked | dlls/user32/winproc.c:741-744 | for a terminated string packed in front of other data, the size is exactly that string's length, so what follows starts right after it |
| Unpack.TreatmentOf | dlls/user32/winproc.c:753-915 | each message falls into exactly one class: relinked header, DWORD pair, flat data, rejected, or untouched (unknown) |
| Unpack.UnpackMessage | dlls/user32/winproc.c:751-920 | WM_NOTIFY and handle-carrying messages fail; unknown ones succeed unchanged; EM_GETSEL, SBM_GETRANGE and CB_GETEDITSEL point wParam at the buffer and lParam one DWORD later; the default exit fails exactly when the buffer is short and otherwise points lParam at it; WM_MDIGETACTIVE fails only when a needed heap block cannot be had, and then leaves the buffer NULL; when it succeeds on a buffer of the size it was told, the buffer has room for the BOOL |
| Unpack.CreateStringsRelinked | dlls/user32/winproc.c:758-771 | a creation record's name is found right after the header and its class right after the name's terminator |
| Unpack.MdiCreateStringsRelinked | dlls/user32/winproc.c:794-807 | an MDI creation record's class is found right after the header and its title right after the class's terminator |
| Dispatch.RouteOf | dlls/user32/winproc.c:704-727 | the 16-bit handler is used exactly when the caller's own procedure is the 16-bit marker; otherwise the call is translated exactly when the encodings differ |
| Dispatch.TranslatesIffEncodingsDiffer | dlls/user32/winproc.c:704-727 | outside the 16-bit cases, AtoW runs exactly for a narrow caller and a wide destination, and WtoA exactly for a wide caller and a narrow destination |
| Dispatch.DispatchWinProc | dlls/user32/winproc.c:699-731 | the chosen route's translator or procedure produces the result, the WtoA route runs the translator as written, the result stays 0 when nothing was called, the call runs under the message's DPI awareness, and the previous awareness is restored afterwards |
| Dispatch.UnpackBuffer | dlls/user32/winproc.c:929-941 | unpack_message is told the true capacity of the buffer it works in; the data after the parameters is used in place exactly when there is any, and its size plus the parameters' size is the whole message |
| Dispatch.ActiveQueryHasRoom | dlls/user32/winproc.c:929-944 | whether or not data came along, an answered WM_MDIGETACTIVE query points lParam at a buffer with room for its BOOL |
| Dispatch.CallWindowProc | dlls/user32/winproc.c:922-1021 | a failed unpack returns without dispatching; otherwise the listed messages answer through a result slot in front of the buffer, with length sizeof(LRESULT) plus the message size, and the others through NtUserMessageCall and a plain result; the slot is inside the received data exactly when data came along; no heap block leaks |
| Properties.SetTextRoundTrip | dlls/user32/winproc.c:542-564 | a narrow string sent through AtoW and then WtoA reaches the narrow procedure unchanged when the code page converts it losslessly both ways and both scratch buffers can be had |

## Left out

- The i386 `WINPROC_wrapper` assembly and the calling-convention shim (42-86) are left out. They are register handling with no behaviour to state.
- `TRACE`/`FIXME` logging and `SPY_GetMsgName` are left out, because they are diagnostics.
- Code-page primitives are not modelled. These are `RtlMultiByteToUnicodeN/Size`, `RtlUnicodeToMultiByteN/Size`, `WideCharToMultiByte`, `get_input_codepage` and `map_wparam_AtoW`. They are function values in `Codepage.Env`, constrained by the length and prefix facts the code relies on. `Codepage.UnicodeToMbN` is also fixed to cut the narrow form at exactly the destination capacity. The ntdll converter does not store a lead byte without its trail byte, so the model can keep one byte more.
- `GetWindowLongA/W` is not modelled. The style and extended style are the parameter `Window`.
- `SendMessageW` is the parameter `send`, and the window procedure is the parameter `proc`.
- `NtUserMessageCall` and `NtCallbackReturn` become fields of the result (`posted`, `reply`).
- `call_dialog_proc`, `WINPROC_CallDlgProcA/W`, `CallWindowProcA/W`, `WINPROC_AllocProc`, `User32CallSendAsyncCallback`, the built-in class wrappers and the 16-bit handler registration are left out. They are thin wrappers or registration plumbing.
- `dlls/mmdevapi/mmdevapi_private.h` is not part of this model. It holds declarations with no marshalling logic.
- The uninitialised `ch[0]` that a failed conversion leaves in `map_wparam_char_WtoA` and WtoA `WM_CHAR` is modelled as an arbitrary byte parameter `stale`.
- The heap outcome is modelled as a boolean `heapOk`, because allocation success cannot be predicted.
- Structures are records, not byte layouts. The casts between the A and W creation structures are not modelled. Struct sizes of the 64-bit build are used: `sizeof(LRESULT)` is 8, `sizeof(BOOL)` is 4 and `sizeof(DEV_BROADCAST_HDR)` is 12. `sizeof(struct win_proc_params)` is a parameter.
- Message numbers and style bits come from the Windows headers (`winuser.h`, `dbt.h`). Those headers are not part of this model.
- A negative count that the source converts to an unsigned length reads everything the procedure wrote, where the source would read past the scratch buffer. This covers `ret*2` in the length query, the `*result` of `EM_GETLINE`, `ret * sizeof(WCHAR)` in AtoW `WM_GETTEXT` (`AtoW.GetText`) and `ret + 1` in WtoA `WM_GETTEXT` (`WtoA.GetTextAsWritten`, `WtoA.GetText`).
- A text the procedure left unterminated is measured only up to the end of what it wrote (`Common.StrLen`). In the source, `lstrlenW` in AtoW `LB_GETTEXT`/`CB_GETLBTEXT` (winproc.c:330-346) and `strlen` in WtoA (winproc.c:603-618) read past the 512-unit scratch buffer in that case.
- AtoW.GetText: on a double-byte code page the stored length, and so the result, can be one byte more than the program's. The model cuts the narrow text at exactly the capacity, which can split a character, while the ntdll converter drops a lead byte whose trail byte does not fit.
- AtoW.ListGetText: the same byte-exact cut of the narrow text at 1536 bytes. On a double-byte code page the stored length can be one byte more than the program's.
- AtoW.GetLine: the same byte-exact cut of the narrow line at the caller's capacity. On a double-byte code page the stored length can be one byte more than the program's, and whether a terminator follows can differ with it.
- Unpack.UnpackMessage: the payload's first string is required to be terminated within the payload, because the sending side always packs the terminator; `string_size` itself reads with `strlen`/`wcslen` without any bound from `size`, and an unterminated payload is not modelled.
- Dispatch.CallWindowProc: dispatch after unpacking is the function parameter `run`. The rebuilt lParam of a received message is not turned back into the records the translators take, so this member does not state what the translators do to a received message.
- Dispatch.DispatchWinProc: the DPI awareness is two result fields, not thread state.
- The slot reply of `User32CallWindowProc` for a listed message that arrived without data is not examined. Its slot then lies in front of the 128-byte stack buffer. The model records which buffer the slot precedes but draws no conclusion.
- Unpacking a message that arrived without data is not examined either. The source then unpacks in the uninitialised stack buffer, so for WM_CREATE or WM_COPYDATA it relinks whatever the stack held. The model relinks the header and payload of the `Packed` message as if they had come along.

## Findings

| source | as written | input that shows it | evidently intended | confidence | as-written member | corrected member |
|---|---|---|---|---|---|---|
| dlls/user32/winproc.c:505-524 | `*result = len / sizeof(WCHAR) - 1; ((LPWSTR)lParam)[*result] = 0;` with no lower bound | wParam 1 and a narrow procedure that returns -1 and sets its result to -1: zero bytes are converted, the result becomes -1 and the zero is stored one unit before the caller's buffer | the terminator stays at unit 0 when nothing was converted, so every store stays within the caller's wParam units | medium, not executed | WtoA.GetTextAsWritten, WtoA.GetTextStoresBeforeBuffer | WtoA.GetText, WtoA.CorrectedCallProcWtoA |
