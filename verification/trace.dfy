/**
 * What a window procedure sees and answers, and the observable outcome of
 * one translated call: the return value, the LRESULT slot, every
 * invocation in order, the heap traffic and the writes into the caller's
 * output buffer.
 */
module Trace {
  import opened Common
  import opened Buffers
  import opened Records

  /** Contents of the scratch buffer a procedure is handed, at call time. */
  datatype Scratch = NoScratch | WideUnits(units: seq<WChar>) | NarrowBytes(bytes: seq<Byte>)

  /** The lParam a procedure receives. */
  datatype Arg =
    | Same                                      // the caller's lParam, untouched
    | CreateArg(cs: CreateRecord<Ref>)          // the address of a translated creation record
    | MdiCreateArg(mcs: MdiCreateRecord<Ref>)   // the address of a translated MDI creation record
    | ScratchPtr                                // the address of the scratch buffer
    | MsgCopy(m: MsgRecord)                     // the address of a local copy of a MSG

  datatype Invocation = Invocation(msg: nat, wParam: nat, lParam: Arg, scratch: Scratch)

  /** A procedure's answer: its return value, the value it left in the
      LRESULT slot, and the contents of the scratch buffer afterwards. */
  datatype Reply = Reply(ret: int, result: int, wide: seq<WChar>, narrow: seq<Byte>)

  /** A window procedure, or SendMessageW, as seen from this layer. */
  type Proc = Invocation -> Reply

  /** A store of `units` into the caller's buffer, starting `at` units in. */
  datatype Write<C> = Write(at: int, units: seq<C>)

  datatype Outcome<C> = Outcome(
    ret: int,                   // the translator's return value
    result: int,                // the LRESULT slot afterwards
    calls: seq<Invocation>,     // invocations of the callback, in order
    sent: seq<Invocation>,      // messages sent through SendMessageW
    heap: seq<HeapOp>,          // heap traffic of the scratch buffer
    writes: seq<Write<C>>)      // stores into the caller's buffer, in order

  /** Every store lands inside a caller buffer of `n` units. */
  predicate WritesWithin<C>(ws: seq<Write<C>>, n: nat)
  {
    forall i :: 0 <= i < |ws| ==> 0 <= ws[i].at && ws[i].at + |ws[i].units| <= n
  }

  /** Each heap block taken is given back. */
  predicate Balanced(ops: seq<HeapOp>)
  {
    AllocCount(ops) == ReleaseCount(ops)
  }

  /** The heap traffic of a scratch buffer acquired and released once. */
  function Scoped(b: Buf): (ops: seq<HeapOp>)
    ensures Balanced(ops)
    ensures b.Static? ==> ops == []
    ensures b.Heap? ==> ops == [Alloc(b.size), Release(b.size)]
  {
    CountsAppend(AcquireOps(b), FreeBuffer(b));
    AcquireOps(b) + FreeBuffer(b)
  }

  /** The outcome of a call whose procedure was never invoked. */
  function Skipped<C>(result0: int): (o: Outcome<C>)
    ensures o.calls == [] && o.sent == [] && o.heap == [] && o.writes == []
    ensures o.ret == 0 && o.result == result0
  {
    Outcome(0, result0, [], [], [], [])
  }

  /** The outcome of invoking `proc` once with the caller's parameters. */
  function PassThrough<C>(proc: Proc, msg: nat, wParam: nat): (o: Outcome<C>)
    ensures o.calls == [Invocation(msg, wParam, Same, NoScratch)]
    ensures o.ret == proc(o.calls[0]).ret && o.result == proc(o.calls[0]).result
    ensures o.sent == [] && o.heap == [] && o.writes == []
  {
    var inv := Invocation(msg, wParam, Same, NoScratch);
    Outcome(proc(inv).ret, proc(inv).result, [inv], [], [], [])
  }
}
