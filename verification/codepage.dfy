/**
 * The code-page collaborators of the marshalling layer. The conversions
 * themselves are not modelled: an Env carries them as uninterpreted
 * functions over whole runs of code units. The Rtl*Size / Rtl*N entry
 * points used by winproc.c are then defined on top of them: *Size reports
 * the full converted length in bytes, *N writes the converted run truncated
 * to the destination capacity.
 */
module Codepage {
  import opened Common

  /** How map_wparam_AtoW is asked to treat lead bytes (enum wm_char_mapping). */
  datatype Mapping =
    | MapPostMessage | MapSendMessage | MapSendMessageTimeout | MapRecvMessage
    | MapDispatchMessage | MapCallWindowProc | NoMapping

  datatype Env = Env(
    toWide: seq<Byte> -> seq<WChar>,                  // RtlMultiByteToUnicode*, ANSI code page
    toNarrow: seq<WChar> -> seq<Byte>,                // RtlUnicodeToMultiByte*, ANSI code page
    charToNarrow: WChar -> seq<Byte>,                 // WideCharToMultiByte of one unit, input code page
    mapCharAtoW: (nat, nat, Mapping) -> Option<nat>)  // map_wparam_AtoW: the new wParam, or None to drop the message

  /** RtlMultiByteToUnicodeSize: bytes needed for the wide form of the first
      `srcBytes` bytes of `src`. */
  function MbToUnicodeSize(env: Env, src: seq<Byte>, srcBytes: nat): (bytes: nat)
    ensures bytes % 2 == 0
    ensures 2 * |MbToUnicodeN(env, bytes, src, srcBytes)| == bytes
  {
    2 * |env.toWide(Take(src, srcBytes))|
  }

  /** RtlMultiByteToUnicodeN: the wide units written into a destination of
      `capBytes` bytes. */
  function MbToUnicodeN(env: Env, capBytes: nat, src: seq<Byte>, srcBytes: nat): (r: seq<WChar>)
    ensures 2 * |r| <= capBytes
    ensures r <= env.toWide(Take(src, srcBytes))
    ensures |r| == Min(capBytes / 2, |env.toWide(Take(src, srcBytes))|)
  {
    Take(env.toWide(Take(src, srcBytes)), capBytes / 2)
  }

  /** RtlUnicodeToMultiByteSize: bytes needed for the narrow form of the
      first `srcBytes` bytes (srcBytes / 2 units) of `src`. */
  function UnicodeToMbSize(env: Env, src: seq<WChar>, srcBytes: nat): (bytes: nat)
    ensures |UnicodeToMbN(env, bytes, src, srcBytes)| == bytes
  {
    |env.toNarrow(Take(src, srcBytes / 2))|
  }

  /** RtlUnicodeToMultiByteN: the bytes written into a destination of `cap`
      bytes. */
  function UnicodeToMbN(env: Env, cap: nat, src: seq<WChar>, srcBytes: nat): (r: seq<Byte>)
    ensures |r| <= cap
    ensures r <= env.toNarrow(Take(src, srcBytes / 2))
    ensures |r| == Min(cap, |env.toNarrow(Take(src, srcBytes / 2))|)
  {
    Take(env.toNarrow(Take(src, srcBytes / 2)), cap)
  }

  /** WideCharToMultiByte of the single unit `wch` into `cap` bytes: the
      bytes written, none when the character does not fit. */
  function CharToNarrowN(env: Env, wch: WChar, cap: nat): (r: seq<Byte>)
    ensures |r| <= cap
    ensures r == [] || r == env.charToNarrow(wch)
    ensures |env.charToNarrow(wch)| <= cap ==> r == env.charToNarrow(wch)
  {
    if |env.charToNarrow(wch)| <= cap then env.charToNarrow(wch) else []
  }
}
