/**
 * Shared vocabulary of the marshalling model: optional values, C strings held
 * as sequences of code units, and the unsigned 32-bit view that the Win32
 * types DWORD / ULONG impose on the counts the marshalling code computes.
 */
module Common {

  datatype Option<+T> = None | Some(value: T)

  /** Narrow (ANSI) code unit and wide (UTF-16) code unit. */
  type Byte = bv8
  type WChar = bv16

  const DWORD_MOD: int := 0x1_0000_0000

  /** The value of an integer once stored in a DWORD or passed as a ULONG:
      two's-complement wrap-around modulo 2^32. */
  function Dword(n: int): (r: nat)
    ensures r < DWORD_MOD
    ensures 0 <= n < DWORD_MOD ==> r == n
    ensures (r - n) % DWORD_MOD == 0
    ensures n >= 0 ==> r <= n
  {
    n % DWORD_MOD
  }

  /** A C string as it sits in memory: the units up to and including the
      first zero unit, which is the last one. */
  predicate Terminated<C(==)>(s: seq<C>, nul: C)
  {
    && |s| > 0
    && s[|s| - 1] == nul
    && forall i :: 0 <= i < |s| - 1 ==> s[i] != nul
  }

  predicate CStrA(s: seq<Byte>) { Terminated(s, 0 as Byte) }
  predicate CStrW(s: seq<WChar>) { Terminated(s, 0 as WChar) }

  /** The first `n` units of `s`, or all of `s` when it is shorter: reading a
      count of units from what a callee actually wrote. */
  function Take<C>(s: seq<C>, n: nat): (r: seq<C>)
    ensures |r| <= n && |r| <= |s|
    ensures |r| == n || |r| == |s|
    ensures r == s[..|r|]
  {
    if n <= |s| then s[..n] else s
  }

  /** strlen / lstrlenW: the number of units before the first `nul`, or all
      of `s` when it holds none (a read that would run past what was
      written stops at its end). */
  function StrLen<C(==)>(s: seq<C>, nul: C): (n: nat)
    ensures n <= |s|
    ensures forall i :: 0 <= i < n ==> s[i] != nul
    ensures n < |s| ==> s[n] == nul
  {
    if |s| == 0 || s[0] == nul then 0 else 1 + StrLen(s[1..], nul)
  }

  function Min(a: int, b: int): int { if a <= b then a else b }

  /** One UTF-16 code unit from its two bytes, low byte first. */
  function Unit(lo: Byte, hi: Byte): WChar
  {
    ((hi as WChar) << 8) | (lo as WChar)
  }

  /** A 16-bit value stored as two bytes, low byte first. */
  function LittleEndian(w: WChar): (r: seq<Byte>)
    ensures |r| == 2
    ensures Unit(r[0], r[1]) == w
  {
    [(w & 0xff) as Byte, (w >> 8) as Byte]
  }
}
