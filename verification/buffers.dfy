/**
 * Scratch-buffer allocation (winproc.c get_buffer / free_buffer /
 * get_buffer_space). A scratch buffer is either the fixed-size buffer the
 * caller declared on its stack, the message buffer received from another
 * process, or a block from the process heap. Heap traffic is reported as a
 * list of operations so that callers can show every block they take is
 * given back.
 */
module Buffers {
  import opened Common

  datatype Buf =
    | Static(capacity: nat)   // the caller's own fixed-size buffer
    | Inbound(size: nat)      // the message buffer that arrived from another process
    | Heap(size: nat)         // a HeapAlloc block of exactly `size` bytes
    | Null                    // no buffer: what a failed HeapAlloc leaves behind

  /** How many bytes the buffer can hold. */
  function Capacity(b: Buf): nat
  {
    match b
    case Static(capacity) => capacity
    case Inbound(size) => size
    case Heap(size) => size
    case Null => 0
  }

  datatype HeapOp = Alloc(bytes: nat) | Release(bytes: nat)

  /** get_buffer: the static buffer of `size` bytes when it holds `need`
      bytes, otherwise a heap block of `need` bytes; `heapOk` says whether
      the heap allocation succeeds. */
  function GetBuffer(size: nat, need: nat, heapOk: bool): (r: Option<Buf>)
    ensures r == Some(Static(size)) <==> need <= size
    ensures r.Some? && !r.value.Static? ==> r.value == Heap(need) && size < need
    ensures r.None? <==> size < need && !heapOk
    ensures r.Some? ==> Capacity(r.value) >= need && r.value != Null
  {
    if size >= need then Some(Static(size))
    else if heapOk then Some(Heap(need))
    else None
  }

  /** The heap operations acquiring `b` performed. */
  function AcquireOps(b: Buf): (ops: seq<HeapOp>)
    ensures |ops| <= 1
    ensures ops == [] <==> !b.Heap?
  {
    if b.Heap? then [Alloc(b.size)] else []
  }

  /** free_buffer: only a block that is not the static buffer goes back to
      the heap. */
  function FreeBuffer(b: Buf): (ops: seq<HeapOp>)
    ensures forall i :: 0 <= i < |ops| ==> b.Heap? && ops[i] == Release(b.size)
    ensures b.Heap? ==> |ops| == 1
  {
    if b.Heap? then [Release(b.size)] else []
  }

  /** get_buffer_space: make sure the buffer has room for `size` bytes when
      the current one holds `prevSize`. The current buffer is kept when that
      is enough, otherwise it is replaced by a fresh heap block, or by
      `Null` when the heap refuses (`heapOk` false). The result is the
      buffer afterwards, which the caller tests for `Null`. */
  function GetBufferSpace(current: Buf, size: nat, prevSize: nat, heapOk: bool): (r: Buf)
    ensures r != Null && Capacity(current) >= prevSize ==> Capacity(r) >= size
    ensures r == Null <==> (if prevSize < size then !heapOk else current == Null)
    ensures r != current ==> prevSize < size && (r == Null || r == Heap(size))
  {
    if prevSize < size then (if heapOk then Heap(size) else Null)
    else current
  }

  function AllocCount(ops: seq<HeapOp>): nat
  {
    if ops == [] then 0 else (if ops[0].Alloc? then 1 else 0) + AllocCount(ops[1..])
  }

  function ReleaseCount(ops: seq<HeapOp>): nat
  {
    if ops == [] then 0 else (if ops[0].Release? then 1 else 0) + ReleaseCount(ops[1..])
  }

  lemma {:induction false} CountsAppend(a: seq<HeapOp>, b: seq<HeapOp>)
    ensures AllocCount(a + b) == AllocCount(a) + AllocCount(b)
    ensures ReleaseCount(a + b) == ReleaseCount(a) + ReleaseCount(b)
  {
    if a == [] {
      assert a + b == b;
    } else {
      assert (a + b)[1..] == a[1..] + b;
      CountsAppend(a[1..], b);
    }
  }

  /** Whatever get_buffer hands out, releasing it with free_buffer gives back
      exactly the heap blocks it took, and the static buffer is never freed. */
  lemma AcquireReleaseBalanced(size: nat, need: nat, heapOk: bool)
    ensures var r := GetBuffer(size, need, heapOk);
            r.Some? ==>
              && AllocCount(AcquireOps(r.value) + FreeBuffer(r.value))
                 == ReleaseCount(AcquireOps(r.value) + FreeBuffer(r.value))
              && (r.value.Static? ==> FreeBuffer(r.value) == [])
              && AllocCount(AcquireOps(r.value)) == (if need <= size then 0 else 1)
  {
    var r := GetBuffer(size, need, heapOk);
    if r.Some? {
      CountsAppend(AcquireOps(r.value), FreeBuffer(r.value));
    }
  }
}
