/**
 * The wrapper lifecycle of `BOOST_FUNCTION_FUNCTION` as a state machine on values.
 *
 * A `World` is the ledger of live targets together with the three fields (`manager`,
 * `invoker`, `functor`) of every wrapper, indexed by an identity `Id`. Each operation is
 * the source's sequence of field updates and manager calls. `Owned` is the ownership
 * discipline: every non-empty wrapper holds exactly one live handle, no two wrappers
 * share one, and every live handle belongs to some wrapper.
 */
module WrapperLifecycle {
  import opened Optional
  import opened FunctionInvokers
  import opened TargetLedger

  /** The three fields a wrapper has on the non-virtual path. */
  datatype Slot = Slot(manager: Option<Manager>, invoker: Option<Invoker>, functor: Handle) {
    /** `empty()`: no manager and no invoker. */
    predicate Empty() { manager.None? && invoker.None? }
  }

  /** The fields after `function_base()` and `invoker(0)`. */
  const EmptySlot := Slot(None, None, Null)

  datatype World<Id, !A, R> = World(heap: Heap<A, R>, slots: map<Id, Slot>)

  /** Whether an operation that may clone ran to the end or threw `bad_alloc` out of the clone. */
  datatype Status = Completed | BadAlloc

  datatype Outcome<Id, !A, R> = Outcome(world: World<Id, A, R>, status: Status)

  // ---------------------------------------------------------------------------------------
  // Ownership

  /** A slot is well formed against the heap: empty with a null functor, or holding a live
      handle whose target matches both its manager and its invoker. */
  ghost predicate SlotOk<A, R>(s: Slot, heap: Heap<A, R>) {
    (s.manager.None? <==> s.invoker.None?) &&
    (s.Empty() ==> s.functor == Null) &&
    (!s.Empty() ==>
       s.functor in heap.live &&
       ManagerFits(s.manager.value, heap.live[s.functor]) &&
       Fits(s.invoker.value, heap.live[s.functor]))
  }

  /** The handles a slot holds: one if it is non-empty, none otherwise. */
  function Held(s: Slot): set<Handle> {
    if s.Empty() then {} else {s.functor}
  }

  /** All handles held by the wrappers. */
  ghost function Owners<Id>(slots: map<Id, Slot>): set<Handle> {
    set id | id in slots && !slots[id].Empty() :: slots[id].functor
  }

  /** No two distinct non-empty wrappers hold the same handle. */
  ghost predicate Distinct<Id>(slots: map<Id, Slot>) {
    forall i, j | i in slots && j in slots && i != j && !slots[i].Empty() && !slots[j].Empty() ::
      slots[i].functor != slots[j].functor
  }

  ghost predicate Owned<Id, A, R>(w: World<Id, A, R>) {
    HeapOk(w.heap) &&
    (forall id | id in w.slots :: SlotOk(w.slots[id], w.heap)) &&
    Distinct(w.slots) &&
    w.heap.live.Keys == Owners(w.slots)
  }

  /** `r` is `w` with wrapper `id` set up on manager `m` and invoker `inv` and a handle, not
      live in `w`, to a copy of `t`: that copy is the only new live target, and every other
      wrapper keeps its fields. */
  ghost predicate Installs<Id, A, R>(w: World<Id, A, R>, r: World<Id, A, R>, id: Id, m: Manager, inv: Invoker, t: Target<A, R>) {
    id in r.slots && r.slots.Keys == w.slots.Keys + {id} &&
    r.slots[id].manager == Some(m) && r.slots[id].invoker == Some(inv) &&
    r.slots[id].functor !in w.heap.live &&
    r.heap.live == w.heap.live[r.slots[id].functor := t] &&
    forall j | j in w.slots && j != id :: r.slots[j] == w.slots[j]
  }

  // ---------------------------------------------------------------------------------------
  // Operations

  /** Default constructor: a new wrapper with no target; nothing is allocated. */
  function ConstructEmpty<Id, A, R>(w: World<Id, A, R>, id: Id): (r: World<Id, A, R>)
    requires id !in w.slots
    ensures r.heap == w.heap
    ensures r.slots.Keys == w.slots.Keys + {id} && r.slots[id].Empty()
    ensures forall j | j in w.slots :: r.slots[j] == w.slots[j]
  {
    World(w.heap, w.slots[id := EmptySlot])
  }

  /** `clear()`: if a manager is set, destroy the target through it (exactly once) and keep the
      null pointer it returns; then null the manager and the invoker. */
  function Clear<Id, A, R>(w: World<Id, A, R>, id: Id): (r: World<Id, A, R>)
    requires id in w.slots
    requires w.slots[id].manager.Some? ==> w.slots[id].functor in w.heap.live
    ensures r.slots.Keys == w.slots.Keys && r.slots[id].Empty()
    ensures forall j | j in w.slots && j != id :: r.slots[j] == w.slots[j]
    ensures w.slots[id].manager.Some? ==>
              r.heap == DestroyFunctor(w.heap, w.slots[id].functor) && r.slots[id].functor == Null
    ensures w.slots[id].manager.None? ==> r.heap == w.heap && r.slots[id] == w.slots[id].(invoker := None)
  {
    var s := w.slots[id];
    if s.manager.Some? then
      World(DestroyFunctor(w.heap, s.functor), w.slots[id := Slot(None, None, Null)])
    else
      World(w.heap, w.slots[id := Slot(None, None, s.functor)])
  }

  /** The destructor: `clear()`, after which the wrapper is gone. */
  function Destroy<Id, A, R>(w: World<Id, A, R>, id: Id): (r: World<Id, A, R>)
    requires id in w.slots
    requires w.slots[id].manager.Some? ==> w.slots[id].functor in w.heap.live
    ensures r.slots.Keys == w.slots.Keys - {id}
    ensures forall j | j in r.slots :: r.slots[j] == w.slots[j]
    ensures r.heap == Clear(w, id).heap
  {
    var c := Clear(w, id);
    World(c.heap, c.slots - {id})
  }

  /** `swap(other)`: exchanges `manager`, `functor` and `invoker` of the two wrappers and
      touches nothing else; no target is cloned or destroyed. */
  function Swap<Id, A, R>(w: World<Id, A, R>, a: Id, b: Id): (r: World<Id, A, R>)
    requires a in w.slots && b in w.slots
    ensures r.heap == w.heap && r.slots.Keys == w.slots.Keys
    ensures r.slots[a] == w.slots[b] && r.slots[b] == w.slots[a]
    ensures forall j | j in w.slots && j != a && j != b :: r.slots[j] == w.slots[j]
  {
    World(w.heap, w.slots[a := w.slots[b]][b := w.slots[a]])
  }

  /**
   * The target set-up shared by the constructors, `operator=`, `set` and `assign_to`, with
   * the clone done before the fields are written: a clone that throws leaves the wrapper as
   * it was (empty, after the preceding `clear()`).
   */
  function AssignTo<Id, A, R>(w: World<Id, A, R>, id: Id, m: Manager, inv: Invoker, t: Target<A, R>): (r: Outcome<Id, A, R>)
    requires id in w.slots && HeapOk(w.heap)
    ensures HeapOk(r.world.heap)
    ensures r.status == BadAlloc <==> Exhausted(w.heap)
    ensures r.status == BadAlloc ==> r.world == w
    ensures r.world.slots.Keys == w.slots.Keys
    ensures r.status == Completed ==>
              var h := r.world.slots[id].functor;
              r.world.slots[id].manager == Some(m) && r.world.slots[id].invoker == Some(inv) &&
              h !in w.heap.live && w.heap.next <= h && r.world.heap.live == w.heap.live[h := t] &&
              forall j | j in w.slots && j != id :: r.world.slots[j] == w.slots[j]
    ensures r.status == Completed ==> Installs(w, r.world, id, m, inv, t)
  {
    var a := CloneFunctor(w.heap, t);
    if a.handle.None? then Outcome(w, BadAlloc)
    else Outcome(World(a.heap, w.slots[id := Slot(Some(m), Some(inv), a.handle.value)]), Completed)
  }

  /**
   * The same set-up in the order the source writes it: `invoker = ...; manager = ...;`
   * and only then `functor = manager(..., clone_functor)`. When the clone throws, the two
   * function pointers are already set.
   */
  function AssignToAsWritten<Id, A, R>(w: World<Id, A, R>, id: Id, m: Manager, inv: Invoker, t: Target<A, R>): (r: Outcome<Id, A, R>)
    requires id in w.slots && HeapOk(w.heap)
    ensures r.status == BadAlloc <==> Exhausted(w.heap)
    ensures r.status == BadAlloc ==>
              r.world.heap == w.heap &&
              r.world.slots == w.slots[id := Slot(Some(m), Some(inv), w.slots[id].functor)]
    ensures r.status == Completed ==> r == AssignTo(w, id, m, inv, t)
  {
    var s := Slot(Some(m), Some(inv), w.slots[id].functor);
    var a := CloneFunctor(w.heap, t);
    if a.handle.None? then Outcome(World(w.heap, w.slots[id := s]), BadAlloc)
    else Outcome(World(a.heap, w.slots[id := s.(functor := a.handle.value)]), Completed)
  }

  /** Constructor from a function object: empty if `has_empty_target`, otherwise a clone of
      it with the function-object manager and invoker. A throwing clone means there is no
      wrapper: the world is unchanged. */
  function ConstructFromObject<Id, A, R>(w: World<Id, A, R>, id: Id, obj: FunctionObject<A, R>, returnsVoid: bool): (r: Outcome<Id, A, R>)
    requires id !in w.slots && HeapOk(w.heap)
    ensures r.status == BadAlloc ==> r.world == w
    ensures obj.hasEmptyTarget ==> r == Outcome(ConstructEmpty(w, id), Completed)
    ensures r.status == Completed ==> id in r.world.slots
    ensures r.status == BadAlloc <==> !obj.hasEmptyTarget && Exhausted(w.heap)
    ensures r.status == Completed && !obj.hasEmptyTarget ==>
              Installs(w, r.world, id, FunctionObjManager, GetFunctionObjInvoker(returnsVoid), ObjectTarget(obj.call, obj.callConst))
  {
    var e := ConstructEmpty(w, id);
    if obj.hasEmptyTarget then Outcome(e, Completed)
    else
      var o := AssignTo(e, id, FunctionObjManager, GetFunctionObjInvoker(returnsVoid), ObjectTarget(obj.call, obj.callConst));
      if o.status == BadAlloc then Outcome(w, BadAlloc) else o
  }

  /** Constructor from a function pointer: empty if the pointer is null. */
  function ConstructFromPointer<Id, A, R>(w: World<Id, A, R>, id: Id, p: FunctionPointer<A, R>, returnsVoid: bool): (r: Outcome<Id, A, R>)
    requires id !in w.slots && HeapOk(w.heap)
    ensures r.status == BadAlloc ==> r.world == w
    ensures p.None? ==> r == Outcome(ConstructEmpty(w, id), Completed)
    ensures r.status == Completed ==> id in r.world.slots
    ensures r.status == BadAlloc <==> p.Some? && Exhausted(w.heap)
    ensures r.status == Completed && p.Some? ==>
              Installs(w, r.world, id, FunctionPtrManager, GetFunctionInvoker(returnsVoid), PointerTarget(p.value))
  {
    var e := ConstructEmpty(w, id);
    if p.None? then Outcome(e, Completed)
    else
      var o := AssignTo(e, id, FunctionPtrManager, GetFunctionInvoker(returnsVoid), PointerTarget(p.value));
      if o.status == BadAlloc then Outcome(w, BadAlloc) else o
  }

  /** Copy constructor: an empty source gives an empty copy; otherwise the copy takes the
      source's invoker and manager and a fresh clone of its target. */
  function ConstructCopy<Id, A, R>(w: World<Id, A, R>, id: Id, src: Id): (r: Outcome<Id, A, R>)
    requires Owned(w) && src in w.slots && id !in w.slots
    ensures r.status == BadAlloc ==> r.world == w
    ensures w.slots[src].Empty() ==> r == Outcome(ConstructEmpty(w, id), Completed)
    ensures r.status == Completed ==> r.world.slots.Keys == w.slots.Keys + {id} && r.world.slots[src] == w.slots[src]
    ensures r.status == BadAlloc <==> !w.slots[src].Empty() && Exhausted(w.heap)
    ensures r.status == Completed && !w.slots[src].Empty() ==>
              Installs(w, r.world, id, w.slots[src].manager.value, w.slots[src].invoker.value, w.heap.live[w.slots[src].functor])
  {
    var e := ConstructEmpty(w, id);
    var f := w.slots[src];
    if f.Empty() then Outcome(e, Completed)
    else
      var o := AssignTo(e, id, f.manager.value, f.invoker.value, w.heap.live[f.functor]);
      if o.status == BadAlloc then Outcome(w, BadAlloc) else o
  }

  /** `operator=(const Functor&)` and `set(const Functor&)`: `clear()` first, then the
      constructor's set-up unless `has_empty_target`. */
  function AssignObject<Id, A, R>(w: World<Id, A, R>, id: Id, obj: FunctionObject<A, R>, returnsVoid: bool): (r: Outcome<Id, A, R>)
    requires Owned(w) && id in w.slots
    ensures obj.hasEmptyTarget ==> r == Outcome(Clear(w, id), Completed)
    ensures r.status == BadAlloc ==> r.world == Clear(w, id)
    ensures r.world.slots.Keys == w.slots.Keys
    ensures r.status == BadAlloc <==> !obj.hasEmptyTarget && Exhausted(Clear(w, id).heap)
    ensures r.status == Completed && !obj.hasEmptyTarget ==>
              Installs(Clear(w, id), r.world, id, FunctionObjManager, GetFunctionObjInvoker(returnsVoid), ObjectTarget(obj.call, obj.callConst)) &&
              r.world.slots[id].functor !in w.heap.live
  {
    ClearPreservesOwned(w, id);
    var c := Clear(w, id);
    if obj.hasEmptyTarget then Outcome(c, Completed)
    else AssignTo(c, id, FunctionObjManager, GetFunctionObjInvoker(returnsVoid), ObjectTarget(obj.call, obj.callConst))
  }

  /** `operator=(OtherR (*f)(...))` and `set(...)` on a function pointer: `clear()` first,
      then the set-up unless the pointer is null. */
  function AssignPointer<Id, A, R>(w: World<Id, A, R>, id: Id, p: FunctionPointer<A, R>, returnsVoid: bool): (r: Outcome<Id, A, R>)
    requires Owned(w) && id in w.slots
    ensures p.None? ==> r == Outcome(Clear(w, id), Completed)
    ensures r.status == BadAlloc ==> r.world == Clear(w, id)
    ensures r.world.slots.Keys == w.slots.Keys
    ensures r.status == BadAlloc <==> p.Some? && Exhausted(Clear(w, id).heap)
    ensures r.status == Completed && p.Some? ==>
              Installs(Clear(w, id), r.world, id, FunctionPtrManager, GetFunctionInvoker(returnsVoid), PointerTarget(p.value)) &&
              r.world.slots[id].functor !in w.heap.live
  {
    ClearPreservesOwned(w, id);
    var c := Clear(w, id);
    if p.None? then Outcome(c, Completed)
    else AssignTo(c, id, FunctionPtrManager, GetFunctionInvoker(returnsVoid), PointerTarget(p.value))
  }

  /** `operator=(const functionN&)` and `set(const functionN&)`: `clear()` first, then, if the
      source is not empty (read after the clear), copy its invoker and manager and clone its
      target (or share the functor when it has no manager). */
  function AssignWrapper<Id, A, R>(w: World<Id, A, R>, dst: Id, src: Id): (r: Outcome<Id, A, R>)
    requires Owned(w) && dst in w.slots && src in w.slots
    ensures r.status == BadAlloc ==> r.world == Clear(w, dst)
    ensures r.world.slots.Keys == w.slots.Keys
    ensures r.status == BadAlloc <==> dst != src && !w.slots[src].Empty() && Exhausted(Clear(w, dst).heap)
    ensures r.status == Completed && dst != src && !w.slots[src].Empty() ==>
              Installs(Clear(w, dst), r.world, dst, w.slots[src].manager.value, w.slots[src].invoker.value, w.heap.live[w.slots[src].functor]) &&
              r.world.slots[dst].functor !in w.heap.live
  {
    ClearPreservesOwned(w, dst);
    var c := Clear(w, dst);
    var f := c.slots[src];
    assert dst != src && !w.slots[src].Empty() ==>
             f == w.slots[src] && w.slots[src].functor != w.slots[dst].functor;
    if f.Empty() then Outcome(c, Completed)
    else if f.manager.Some? then AssignTo(c, dst, f.manager.value, f.invoker.value, c.heap.live[f.functor])
    else Outcome(World(c.heap, c.slots[dst := f]), Completed)
  }

  /** `operator()` and `operator() const`: the bound invoker run on the stored target with the
      const flag of the entry point used. */
  function Dispatch<Id, A, R>(w: World<Id, A, R>, id: Id, isConst: bool, args: A): (r: Invocation<R>)
    requires Owned(w) && id in w.slots && !w.slots[id].Empty()
    ensures r.result.None? <==> w.slots[id].invoker.value.IsVoid()
    ensures r.view.Direct? <==> w.heap.live[w.slots[id].functor].PointerTarget?
    ensures w.heap.live[w.slots[id].functor].ObjectTarget? ==> (r.view == ConstView <==> isConst)
    ensures r.result.Some? ==> r.result.value == Run(w.heap.live[w.slots[id].functor], r.view, args)
  {
    var s := w.slots[id];
    Invoke(s.invoker.value, w.heap.live[s.functor], isConst, args)
  }

  // ---------------------------------------------------------------------------------------
  // Ownership lemmas: helpers on Owners

  lemma {:induction false} OwnersUpdate<Id>(slots: map<Id, Slot>, id: Id, s: Slot)
    requires Distinct(slots) && id in slots
    ensures Owners(slots[id := s]) == Owners(slots) - Held(slots[id]) + Held(s)
  {
    var lhs, rhs := Owners(slots[id := s]), Owners(slots) - Held(slots[id]) + Held(s);
    forall h | h in lhs ensures h in rhs {
      var j :| j in slots[id := s] && !slots[id := s][j].Empty() && slots[id := s][j].functor == h;
      if j != id {
        assert h in Owners(slots);
      }
    }
    forall h | h in rhs ensures h in lhs {
      if h in Held(s) {
        assert slots[id := s][id] == s;
      } else {
        var j :| j in slots && !slots[j].Empty() && slots[j].functor == h;
        assert j != id;
        assert slots[id := s][j] == slots[j];
      }
    }
  }

  lemma {:induction false} OwnersAdd<Id>(slots: map<Id, Slot>, id: Id, s: Slot)
    requires id !in slots
    ensures Owners(slots[id := s]) == Owners(slots) + Held(s)
  {
    var lhs, rhs := Owners(slots[id := s]), Owners(slots) + Held(s);
    forall h | h in lhs ensures h in rhs {
      var j :| j in slots[id := s] && !slots[id := s][j].Empty() && slots[id := s][j].functor == h;
      if j != id {
        assert h in Owners(slots);
      }
    }
    forall h | h in rhs ensures h in lhs {
      if h in Held(s) {
        assert slots[id := s][id] == s;
      } else {
        var j :| j in slots && !slots[j].Empty() && slots[j].functor == h;
        assert slots[id := s][j] == slots[j];
      }
    }
  }

  lemma {:induction false} OwnersRemove<Id>(slots: map<Id, Slot>, id: Id)
    requires Distinct(slots) && id in slots
    ensures Owners(slots - {id}) == Owners(slots) - Held(slots[id])
  {
    var lhs, rhs := Owners(slots - {id}), Owners(slots) - Held(slots[id]);
    forall h | h in lhs ensures h in rhs {
      var j :| j in slots - {id} && !(slots - {id})[j].Empty() && (slots - {id})[j].functor == h;
      assert h in Owners(slots);
    }
    forall h | h in rhs ensures h in lhs {
      var j :| j in slots && !slots[j].Empty() && slots[j].functor == h;
      assert j != id;
      assert (slots - {id})[j] == slots[j];
    }
  }

  // ---------------------------------------------------------------------------------------
  // Every operation keeps the ownership discipline

  lemma ConstructEmptyPreservesOwned<Id, A, R>(w: World<Id, A, R>, id: Id)
    requires Owned(w) && id !in w.slots
    ensures Owned(ConstructEmpty(w, id))
  {
    OwnersAdd(w.slots, id, EmptySlot);
  }

  lemma ClearPreservesOwned<Id, A, R>(w: World<Id, A, R>, id: Id)
    requires Owned(w) && id in w.slots
    ensures Owned(Clear(w, id))
  {
    var s := w.slots[id];
    var r := Clear(w, id);
    OwnersUpdate(w.slots, id, r.slots[id]);
    forall j | j in r.slots ensures SlotOk(r.slots[j], r.heap) {
      if j != id && !r.slots[j].Empty() {
        assert w.slots[j] == r.slots[j];
        assert s.manager.Some? ==> w.slots[j].functor != s.functor;
      }
    }
  }

  lemma DestroyPreservesOwned<Id, A, R>(w: World<Id, A, R>, id: Id)
    requires Owned(w) && id in w.slots
    ensures Owned(Destroy(w, id))
  {
    ClearPreservesOwned(w, id);
    var c := Clear(w, id);
    OwnersRemove(c.slots, id);
  }

  lemma {:induction false} SwapPreservesOwned<Id, A, R>(w: World<Id, A, R>, a: Id, b: Id)
    requires Owned(w) && a in w.slots && b in w.slots
    ensures Owned(Swap(w, a, b))
  {
    var r := Swap(w, a, b);
    forall i, j | i in r.slots && j in r.slots && i != j && !r.slots[i].Empty() && !r.slots[j].Empty()
      ensures r.slots[i].functor != r.slots[j].functor
    {
      var i' := if i == a then b else if i == b then a else i;
      var j' := if j == a then b else if j == b then a else j;
      assert r.slots[i] == w.slots[i'] && r.slots[j] == w.slots[j'];
    }
    forall h | h in Owners(r.slots) ensures h in Owners(w.slots) {
      var i :| i in r.slots && !r.slots[i].Empty() && r.slots[i].functor == h;
      var i' := if i == a then b else if i == b then a else i;
      assert r.slots[i] == w.slots[i'];
    }
    forall h | h in Owners(w.slots) ensures h in Owners(r.slots) {
      var i :| i in w.slots && !w.slots[i].Empty() && w.slots[i].functor == h;
      var i' := if i == a then b else if i == b then a else i;
      assert r.slots[i'] == w.slots[i];
    }
  }

  lemma AssignToPreservesOwned<Id, A, R>(w: World<Id, A, R>, id: Id, m: Manager, inv: Invoker, t: Target<A, R>)
    requires Owned(w) && id in w.slots && w.slots[id].Empty()
    requires ManagerFits(m, t) && Fits(inv, t)
    ensures Owned(AssignTo(w, id, m, inv, t).world)
  {
    var r := AssignTo(w, id, m, inv, t);
    if r.status == Completed {
      var s := r.world.slots[id];
      OwnersUpdate(w.slots, id, s);
      forall j | j in r.world.slots ensures SlotOk(r.world.slots[j], r.world.heap) {
        if j != id && !r.world.slots[j].Empty() {
          assert w.slots[j] == r.world.slots[j];
          assert w.slots[j].functor in w.heap.live;
        }
      }
      forall i, j | i in r.world.slots && j in r.world.slots && i != j && !r.world.slots[i].Empty() && !r.world.slots[j].Empty()
        ensures r.world.slots[i].functor != r.world.slots[j].functor
      {
        if i != id && j != id {
          assert r.world.slots[i] == w.slots[i] && r.world.slots[j] == w.slots[j];
        } else if i == id {
          assert w.slots[j].functor in w.heap.live;
        } else {
          assert w.slots[i].functor in w.heap.live;
        }
      }
    }
  }

  lemma ConstructFromObjectPreservesOwned<Id, A, R>(w: World<Id, A, R>, id: Id, obj: FunctionObject<A, R>, returnsVoid: bool)
    requires Owned(w) && id !in w.slots
    ensures Owned(ConstructFromObject(w, id, obj, returnsVoid).world)
  {
    ConstructEmptyPreservesOwned(w, id);
    var e := ConstructEmpty(w, id);
    AssignToPreservesOwned(e, id, FunctionObjManager, GetFunctionObjInvoker(returnsVoid), ObjectTarget(obj.call, obj.callConst));
  }

  lemma ConstructFromPointerPreservesOwned<Id, A, R>(w: World<Id, A, R>, id: Id, p: FunctionPointer<A, R>, returnsVoid: bool)
    requires Owned(w) && id !in w.slots
    ensures Owned(ConstructFromPointer(w, id, p, returnsVoid).world)
  {
    ConstructEmptyPreservesOwned(w, id);
    if p.Some? {
      AssignToPreservesOwned(ConstructEmpty(w, id), id, FunctionPtrManager, GetFunctionInvoker(returnsVoid), PointerTarget(p.value));
    }
  }

  lemma ConstructCopyPreservesOwned<Id, A, R>(w: World<Id, A, R>, id: Id, src: Id)
    requires Owned(w) && src in w.slots && id !in w.slots
    ensures Owned(ConstructCopy(w, id, src).world)
  {
    ConstructEmptyPreservesOwned(w, id);
    var f := w.slots[src];
    if !f.Empty() {
      AssignToPreservesOwned(ConstructEmpty(w, id), id, f.manager.value, f.invoker.value, w.heap.live[f.functor]);
    }
  }

  lemma AssignObjectPreservesOwned<Id, A, R>(w: World<Id, A, R>, id: Id, obj: FunctionObject<A, R>, returnsVoid: bool)
    requires Owned(w) && id in w.slots
    ensures Owned(AssignObject(w, id, obj, returnsVoid).world)
  {
    ClearPreservesOwned(w, id);
    if !obj.hasEmptyTarget {
      AssignToPreservesOwned(Clear(w, id), id, FunctionObjManager, GetFunctionObjInvoker(returnsVoid), ObjectTarget(obj.call, obj.callConst));
    }
  }

  lemma AssignPointerPreservesOwned<Id, A, R>(w: World<Id, A, R>, id: Id, p: FunctionPointer<A, R>, returnsVoid: bool)
    requires Owned(w) && id in w.slots
    ensures Owned(AssignPointer(w, id, p, returnsVoid).world)
  {
    ClearPreservesOwned(w, id);
    if p.Some? {
      AssignToPreservesOwned(Clear(w, id), id, FunctionPtrManager, GetFunctionInvoker(returnsVoid), PointerTarget(p.value));
    }
  }

  lemma AssignWrapperPreservesOwned<Id, A, R>(w: World<Id, A, R>, dst: Id, src: Id)
    requires Owned(w) && dst in w.slots && src in w.slots
    ensures Owned(AssignWrapper(w, dst, src).world)
  {
    ClearPreservesOwned(w, dst);
    var c := Clear(w, dst);
    var f := c.slots[src];
    if !f.Empty() {
      AssignToPreservesOwned(c, dst, f.manager.value, f.invoker.value, c.heap.live[f.functor]);
    }
  }

  // ---------------------------------------------------------------------------------------
  // Properties of single operations and of sequences of them

  /** Under `Owned`, every live handle belongs to exactly one wrapper. */
  lemma LiveHandleHasOneOwner<Id, A, R>(w: World<Id, A, R>, h: Handle)
    requires Owned(w) && h in w.heap.live
    ensures exists id :: id in w.slots && !w.slots[id].Empty() && w.slots[id].functor == h
    ensures forall i, j | i in w.slots && j in w.slots && !w.slots[i].Empty() && !w.slots[j].Empty() &&
                          w.slots[i].functor == h && w.slots[j].functor == h :: i == j
  {
    assert h in Owners(w.slots);
  }

  /** A second `clear()` destroys nothing and changes nothing. */
  lemma ClearIdempotent<Id, A, R>(w: World<Id, A, R>, id: Id)
    requires id in w.slots
    requires w.slots[id].manager.Some? ==> w.slots[id].functor in w.heap.live
    ensures Clear(Clear(w, id), id) == Clear(w, id)
  {
  }

  /** Swapping twice restores both wrappers, and swapping a wrapper with itself is a no-op. */
  lemma {:induction false} SwapTwiceRestores<Id, A, R>(w: World<Id, A, R>, a: Id, b: Id)
    requires a in w.slots && b in w.slots
    ensures Swap(Swap(w, a, b), a, b) == w
    ensures Swap(w, a, a) == w
  {
    var r := Swap(Swap(w, a, b), a, b);
    assert r.slots.Keys == w.slots.Keys;
    assert forall j | j in w.slots :: r.slots[j] == w.slots[j];
    assert r.slots == w.slots;
    var s := Swap(w, a, a);
    assert forall j | j in w.slots :: s.slots[j] == w.slots[j];
    assert s.slots == w.slots;
  }

  /** Self-assignment `a = a` (and `a.set(a)`): `clear()` empties `a`, so the source is then
      empty and nothing is cloned. The target is released once and `a` ends empty. */
  lemma SelfAssignmentEmpties<Id, A, R>(w: World<Id, A, R>, a: Id)
    requires Owned(w) && a in w.slots
    ensures AssignWrapper(w, a, a) == Outcome(Clear(w, a), Completed)
    ensures AssignWrapper(w, a, a).world.slots[a].Empty()
    ensures !w.slots[a].Empty() ==>
              AssignWrapper(w, a, a).world.heap.live.Keys == w.heap.live.Keys - {w.slots[a].functor}
  {
  }

  /** Assigning from an empty wrapper leaves the destination empty and allocates nothing. */
  lemma AssignFromEmptyAllocatesNothing<Id, A, R>(w: World<Id, A, R>, dst: Id, src: Id)
    requires Owned(w) && dst in w.slots && src in w.slots && w.slots[src].Empty()
    ensures AssignWrapper(w, dst, src) == Outcome(Clear(w, dst), Completed)
  {
  }

  /** A copy of a non-empty wrapper holds its own live handle, distinct from the source's,
      whose target is a copy of the source's target; the source is unchanged. */
  lemma CopyOwnsDistinctClone<Id, A, R>(w: World<Id, A, R>, id: Id, src: Id)
    requires Owned(w) && src in w.slots && id !in w.slots && !w.slots[src].Empty()
    requires ConstructCopy(w, id, src).status == Completed
    ensures var r := ConstructCopy(w, id, src).world;
            r.slots[id].manager == w.slots[src].manager && r.slots[id].invoker == w.slots[src].invoker &&
            r.slots[id].functor != w.slots[src].functor &&
            r.slots[id].functor in r.heap.live && r.slots[src].functor in r.heap.live &&
            r.heap.live[r.slots[id].functor] == w.heap.live[w.slots[src].functor] &&
            r.slots[src] == w.slots[src]
  {
  }

  /** Copy independence: after a copy, destroying the source leaves the copy's fields, its
      live target and every call on it exactly as they were. */
  lemma CopySurvivesSourceDestroy<Id, A, R>(w: World<Id, A, R>, id: Id, src: Id, isConst: bool, args: A)
    requires Owned(w) && src in w.slots && id !in w.slots && !w.slots[src].Empty()
    requires ConstructCopy(w, id, src).status == Completed
    ensures var c := ConstructCopy(w, id, src).world;
            var d := Destroy(c, src);
            Owned(c) && Owned(d) && id in d.slots && d.slots[id] == c.slots[id] && !d.slots[id].Empty() &&
            Dispatch(d, id, isConst, args) == Dispatch(c, id, isConst, args) == Dispatch(w, src, isConst, args)
  {
    ConstructCopyPreservesOwned(w, id, src);
    var c := ConstructCopy(w, id, src).world;
    CopyOwnsDistinctClone(w, id, src);
    DestroyPreservesOwned(c, src);
    var d := Destroy(c, src);
    assert d.slots[id] == c.slots[id];
    assert c.slots[id].functor in d.heap.live;
  }

  /** Assignment independence: after `b = a` with `a` non-empty, `b` holds a clone of `a`'s
      target on a handle of its own, and destroying `a` leaves `b`'s fields, its live target
      and every call on it exactly as they were. */
  lemma AssignSurvivesSourceDestroy<Id, A, R>(w: World<Id, A, R>, dst: Id, src: Id, isConst: bool, args: A)
    requires Owned(w) && dst in w.slots && src in w.slots && dst != src && !w.slots[src].Empty()
    requires AssignWrapper(w, dst, src).status == Completed
    ensures var a := AssignWrapper(w, dst, src).world;
            var d := Destroy(a, src);
            Owned(a) && Owned(d) && a.slots[src] == w.slots[src] && a.slots[dst].functor != a.slots[src].functor &&
            dst in d.slots && d.slots[dst] == a.slots[dst] && !d.slots[dst].Empty() &&
            Dispatch(d, dst, isConst, args) == Dispatch(a, dst, isConst, args) == Dispatch(w, src, isConst, args)
  {
    AssignWrapperPreservesOwned(w, dst, src);
    var a := AssignWrapper(w, dst, src).world;
    DestroyPreservesOwned(a, src);
    var d := Destroy(a, src);
    assert d.slots[dst] == a.slots[dst];
    assert a.slots[dst].functor in d.heap.live;
  }

  /** An assignment onto a non-empty wrapper can still throw: once the allocator's quota is
      spent, `clear()` releases the old target and the clone fails all the same. With the
      clone-first set-up the wrapper is then empty, its old target released exactly once,
      and ownership is kept. */
  lemma FailedAssignmentAfterClear<Id, A, R>(w: World<Id, A, R>, id: Id, obj: FunctionObject<A, R>, returnsVoid: bool)
    requires Owned(w) && id in w.slots && !w.slots[id].Empty() && !obj.hasEmptyTarget
    requires w.heap.next > w.heap.quota
    ensures var r := AssignObject(w, id, obj, returnsVoid);
            r.status == BadAlloc && r.world.slots[id].Empty() &&
            r.world.heap.live.Keys == w.heap.live.Keys - {w.slots[id].functor} && Owned(r.world)
  {
    AssignObjectPreservesOwned(w, id, obj, returnsVoid);
  }

  /** Calling a wrapper built from a function object runs that object: its const operator
      exactly on the const entry point; a void wrapper returns nothing. */
  lemma CallRunsWrappedObject<Id, A, R>(w: World<Id, A, R>, id: Id, obj: FunctionObject<A, R>, returnsVoid: bool, isConst: bool, args: A)
    requires Owned(w) && id !in w.slots && !obj.hasEmptyTarget
    requires ConstructFromObject(w, id, obj, returnsVoid).status == Completed
    ensures var r := ConstructFromObject(w, id, obj, returnsVoid).world;
            Owned(r) && id in r.slots && !r.slots[id].Empty() &&
            Dispatch(r, id, isConst, args) ==
              Invocation(if isConst then ConstView else MutableView,
                         if returnsVoid then None
                         else Some(if isConst then obj.callConst(args) else obj.call(args)))
  {
    ConstructFromObjectPreservesOwned(w, id, obj, returnsVoid);
  }

  /** Calling a wrapper built from a non-null function pointer calls the pointer, whichever
      entry point is used; a void wrapper returns nothing. */
  lemma CallRunsWrappedPointer<Id, A, R>(w: World<Id, A, R>, id: Id, fn: A -> R, returnsVoid: bool, isConst: bool, args: A)
    requires Owned(w) && id !in w.slots
    requires ConstructFromPointer(w, id, Some(fn), returnsVoid).status == Completed
    ensures var r := ConstructFromPointer(w, id, Some(fn), returnsVoid).world;
            Owned(r) && id in r.slots && !r.slots[id].Empty() &&
            Dispatch(r, id, isConst, args) == Invocation(Direct, if returnsVoid then None else Some(fn(args)))
  {
    ConstructFromPointerPreservesOwned(w, id, Some(fn), returnsVoid);
  }

  /**
   * The order the source writes: when the clone throws after `invoker` and `manager` are
   * set, the wrapper is not empty yet holds no live handle. Its next `clear()` (or its
   * destructor) would destroy a handle the ledger does not hold, and a call would invoke
   * a target that does not exist.
   */
  lemma FailedCloneLeavesDanglingWrapper<Id, A, R>(w: World<Id, A, R>, id: Id, m: Manager, inv: Invoker, t: Target<A, R>)
    requires Owned(w) && id in w.slots && w.slots[id].Empty()
    requires Exhausted(w.heap)
    ensures var r := AssignToAsWritten(w, id, m, inv, t);
            r.status == BadAlloc && !r.world.slots[id].Empty() && r.world.slots[id].manager.Some? &&
            r.world.slots[id].functor !in r.world.heap.live && !Owned(r.world)
  {
    var r := AssignToAsWritten(w, id, m, inv, t);
    assert r.world.slots[id].functor == Null;
    assert !SlotOk(r.world.slots[id], r.world.heap);
  }

  /** With the clone done first, the same failure leaves the wrapper empty and the ledger
      untouched, and ownership is kept. */
  lemma FailedCloneLeavesEmpty<Id, A, R>(w: World<Id, A, R>, id: Id, m: Manager, inv: Invoker, t: Target<A, R>)
    requires Owned(w) && id in w.slots && w.slots[id].Empty()
    requires Exhausted(w.heap)
    ensures var r := AssignTo(w, id, m, inv, t);
            r.status == BadAlloc && r.world.slots[id].Empty() && r.world.heap == w.heap && Owned(r.world)
  {
  }

  /** A concrete instance of the failure: an allocator with no room and one empty wrapper. */
  lemma AsWrittenCounterexample()
    ensures var w := World(Heap(map[], 1, 0, 0), map[0 := EmptySlot]);
            var r := AssignToAsWritten(w, 0, FunctionObjManager, FunctionObjInvoker, ObjectTarget((x: int) => x, (x: int) => x));
            Owned(w) && r.status == BadAlloc && !r.world.slots[0].Empty() && !Owned(r.world)
  {
    var w := World(Heap(map[], 1, 0, 0), map[0 := EmptySlot]);
    assert Owners(w.slots) == {};
    FailedCloneLeavesDanglingWrapper(w, 0, FunctionObjManager, FunctionObjInvoker, ObjectTarget((x: int) => x, (x: int) => x));
  }
}
