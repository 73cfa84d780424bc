/**
 * Mapping of a character carried in wParam from a wide unit to narrow
 * bytes (winproc.c map_wparam_char_WtoA). WPARAM words are modelled as
 * naturals; MAKEWPARAM keeps only 32 bits.
 */
module CharMap {
  import opened Common
  import opened Codepage

  const WORD_MOD: nat := 0x10000

  lemma DivByteUnique(x: int, q: int)
    requires q * 256 <= x < q * 256 + 256
    ensures x / 256 == q && x % 256 == x - q * 256
  {
    assert x == (x / 256) * 256 + x % 256;
  }

  lemma DivWordUnique(x: int, q: int)
    requires q * WORD_MOD <= x < q * WORD_MOD + WORD_MOD
    ensures x / WORD_MOD == q && x % WORD_MOD == x - q * WORD_MOD
  {
    assert x == (x / WORD_MOD) * WORD_MOD + x % WORD_MOD;
  }

  function LoWord(w: nat): (r: nat) ensures r < WORD_MOD { w % WORD_MOD }
  function HiWord(w: nat): (r: nat) ensures r < WORD_MOD { (w / WORD_MOD) % WORD_MOD }

  /** MAKEWPARAM(lo, hi): two 16-bit halves of a 32-bit word. */
  function MakeWParam(lo: nat, hi: nat): (r: nat)
    ensures r < DWORD_MOD
    ensures LoWord(r) == lo % WORD_MOD && HiWord(r) == hi % WORD_MOD
  {
    var l := lo % WORD_MOD;
    var h := hi % WORD_MOD;
    DivWordUnique(l + h * WORD_MOD, h);
    DivWordUnique(h, 0);
    l + h * WORD_MOD
  }

  /** The wide unit a wParam designates (the WCHAR conversion keeps the low 16 bits). */
  function WCharOf(wParam: nat): WChar { (wParam % WORD_MOD) as WChar }

  /** The byte a one-byte character message carries: ch[0] when the
      conversion wrote something, otherwise the stale contents `stale` of the
      uninitialised buffer. */
  function FirstByte(bytes: seq<Byte>, stale: Byte): Byte
  {
    if |bytes| > 0 then bytes[0] else stale
  }

  /** A lead byte and a trail byte packed into one 16-bit value, lead byte high. */
  function Pack(lead: Byte, trail: Byte): (r: nat)
    ensures r < WORD_MOD
    ensures r / 256 == lead as nat && r % 256 == trail as nat
  {
    var l := lead as nat;
    var t := trail as nat;
    DivByteUnique(l * 256 + t, l);
    l * 256 + t
  }

  /** map_wparam_char_WtoA: convert the character in the low word of
      `wParam` into at most `len` bytes; two bytes are packed lead byte
      high, trail byte low, and the high word of wParam is kept. */
  function MapWParamCharWtoA(env: Env, wParam: nat, len: nat, stale: Byte): (r: nat)
    ensures r < DWORD_MOD
    ensures HiWord(r) == HiWord(wParam)
    ensures var bytes := CharToNarrowN(env, WCharOf(wParam), len);
            |bytes| == 2 ==> LoWord(r) == Pack(bytes[0], bytes[1])
    ensures var bytes := CharToNarrowN(env, WCharOf(wParam), len);
            |bytes| != 2 ==> LoWord(r) == FirstByte(bytes, stale) as nat
  {
    var bytes := CharToNarrowN(env, WCharOf(wParam), len);
    var lo := if |bytes| == 2 then Pack(bytes[0], bytes[1]) else FirstByte(bytes, stale) as nat;
    var hi := HiWord(wParam);
    DivWordUnique(lo, 0);
    DivWordUnique(hi, 0);
    MakeWParam(lo, hi)
  }

  /** The packed low word of a two-byte result gives back both bytes in
      order, and the character of a one-byte result is that byte. */
  lemma CharPairRoundTrip(env: Env, wParam: nat, len: nat, stale: Byte)
    ensures var bytes := CharToNarrowN(env, WCharOf(wParam), len);
            var lo := LoWord(MapWParamCharWtoA(env, wParam, len, stale));
            && (|bytes| == 2 ==> lo / 256 == bytes[0] as nat && lo % 256 == bytes[1] as nat)
            && (|bytes| == 1 ==> lo < 256 && lo == bytes[0] as nat)
  {
  }
}
