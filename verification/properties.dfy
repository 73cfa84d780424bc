/**
 * Properties that span the two translators.
 */
module Properties {
  import opened Common
  import opened Codepage
  import opened Records
  import opened Trace
  import AtoW
  import WtoA

  /** A narrow string sent as WM_SETTEXT through AtoW reaches the wide
      procedure as its wide form; when that procedure forwards it through
      WtoA to a narrow procedure, the narrow procedure sees the original
      bytes, provided the code page converts the string both ways without
      loss and the scratch buffers can be had. */
  lemma SetTextRoundTrip(env: Env, procW: Proc, procA: Proc, msg: nat, wParam: nat, s: seq<Byte>)
    requires CStrA(s) && CStrW(env.toWide(s)) && env.toNarrow(env.toWide(s)) == s
    ensures var o1 := AtoW.SetText(env, procW, msg, wParam, Text(s), true, 0);
      && |o1.calls| == 1
      && o1.calls[0].scratch == WideUnits(env.toWide(s))
      && var o2 := WtoA.SetText(env, procA, msg, wParam, Text(o1.calls[0].scratch.units), true, 0);
      && |o2.calls| == 1
      && o2.calls[0].scratch == NarrowBytes(s)
  {
  }
}
