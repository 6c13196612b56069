/**
 * The abstract ledger of live target allocations behind the wrappers' `functor` handles.
 *
 * `functor_manager<F, Allocator>::manage` is not part of this model; its two operations
 * are modelled here: `clone_functor` copies a target into a fresh live handle (and throws
 * `bad_alloc` when the allocator has no room left), `destroy_functor` takes a handle out
 * of the ledger and yields the null pointer.
 */
module TargetLedger {
  import opened Optional
  import opened FunctionInvokers

  /** An `any_pointer` to a stored target; `Null` is the null pointer. */
  type Handle = nat
  const Null: Handle := 0

  /** Live allocations, the next fresh handle, how many targets the allocator can hold at
      once (`capacity`), and the last handle it will ever issue (`quota`). */
  datatype Heap<!A, R> = Heap(live: map<Handle, Target<A, R>>, next: Handle, capacity: nat, quota: Handle)

  /** Every live handle is non-null and below `next`, so `next` is always fresh. */
  ghost predicate HeapOk<A, R>(heap: Heap<A, R>) {
    Null < heap.next && forall h | h in heap.live :: Null < h < heap.next
  }

  /** Whether the allocator throws `bad_alloc` on the next clone: it is full, or it has used
      up its quota, in which case releasing a target does not help. */
  predicate Exhausted<A, R>(heap: Heap<A, R>) {
    |heap.live| >= heap.capacity || heap.next > heap.quota
  }

  /** The heap after a clone, and the handle it produced (None: the clone threw `bad_alloc`). */
  datatype Allocation<!A, R> = Allocation(heap: Heap<A, R>, handle: Option<Handle>)

  /** `manager(source, clone_functor)`: a fresh live handle holding a copy of `t`, or a failure
      that leaves the ledger as it was. */
  function CloneFunctor<A, R>(heap: Heap<A, R>, t: Target<A, R>): (a: Allocation<A, R>)
    requires HeapOk(heap)
    ensures HeapOk(a.heap) && a.heap.capacity == heap.capacity && a.heap.quota == heap.quota
    ensures a.handle.None? <==> Exhausted(heap)
    ensures a.handle.None? ==> a.heap == heap
    ensures a.handle.Some? ==>
              a.handle.value != Null && a.handle.value !in heap.live &&
              heap.next <= a.handle.value < a.heap.next &&
              a.heap.live == heap.live[a.handle.value := t]
  {
    if !Exhausted(heap) then
      Allocation(heap.(live := heap.live[heap.next := t], next := heap.next + 1), Some(heap.next))
    else
      Allocation(heap, None)
  }

  /** `manager(h, destroy_functor)`: releases exactly `h`, which must be live (destroying
      anything else would be a double free). */
  function DestroyFunctor<A, R>(heap: Heap<A, R>, h: Handle): (r: Heap<A, R>)
    requires h in heap.live
    ensures r.live.Keys == heap.live.Keys - {h}
    ensures forall k | k in r.live :: r.live[k] == heap.live[k]
    ensures r.next == heap.next && r.capacity == heap.capacity && r.quota == heap.quota
    ensures HeapOk(heap) ==> HeapOk(r)
  {
    heap.(live := heap.live - {h})
  }
}
