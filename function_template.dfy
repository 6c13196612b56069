/**
 * The wrapper class `BOOST_FUNCTION_FUNCTION` (`functionN<R, T1..TN, Policy, Mixin, Allocator>`)
 * on its non-virtual storage path, and its free `swap`.
 *
 * A `Function` has the three fields of that path; a `Ledger` holds the live targets the
 * managers allocated, and registers the wrappers that exist, so that `World()` gives the
 * whole state as a `WrapperLifecycle.World`. Every mutating method states its effect as the
 * matching operation of `WrapperLifecycle` on that state, and keeps `Valid()`, whose heart
 * is the ownership discipline `WrapperLifecycle.Owned`. The void-result specialisation is
 * the same class with `returnsVoid` set.
 */
module FunctionTemplate {
  import opened Optional
  import opened FunctionInvokers
  import opened TargetLedger
  import L = WrapperLifecycle

  /** The steps of a call as the policy and the invoker see them; the invoker step records
      the flag it was passed and what the invocation did. */
  datatype Step<R> = Precall | InvokerCalled(isConst: bool, invocation: Invocation<R>) | Postcall

  class Ledger<A, R> {
    var live: map<Handle, Target<A, R>>
    var next: Handle
    const capacity: nat
    const quota: Handle
    ghost var wrappers: set<Function<A, R>>

    function State(): Heap<A, R>
      reads this
    {
      Heap(live, next, capacity, quota)
    }

    ghost function World(): L.World<Function<A, R>, A, R>
      reads this, wrappers
    {
      L.World(State(), map w | w in wrappers :: w.Slot())
    }

    ghost predicate Valid()
      reads this, wrappers
    {
      (forall w | w in wrappers :: w.ledger == this && w.Typed()) &&
      L.Owned(World())
    }

    /** An allocator with room for `capacity` targets at once and `quota` allocations in all,
        and no wrappers yet. */
    constructor (capacity: nat, quota: Handle)
      ensures Valid() && wrappers == {} && live == map[] && this.capacity == capacity && this.quota == quota
    {
      live := map[];
      next := 1;
      this.capacity := capacity;
      this.quota := quota;
      wrappers := {};
      new;
      assert L.Owners(World().slots) == {};
    }

    /** `manager(source, clone_functor)`. */
    method CloneFunctor(t: Target<A, R>) returns (h: Option<Handle>)
      requires HeapOk(State())
      modifies this
      ensures wrappers == old(wrappers)
      ensures Allocation(State(), h) == TargetLedger.CloneFunctor(old(State()), t)
    {
      if |live| < capacity && next <= quota {
        h := Some(next);
        live := live[next := t];
        next := next + 1;
      } else {
        h := None;
      }
    }

    /** `manager(h, destroy_functor)`, which yields the null pointer. */
    method DestroyFunctor(h: Handle) returns (r: Handle)
      requires h in live
      modifies this
      ensures wrappers == old(wrappers) && r == Null
      ensures State() == TargetLedger.DestroyFunctor(old(State()), h)
    {
      live := live - {h};
      r := Null;
    }
  }

  class Function<A, R> {
    var manager: Option<Manager>
    var invoker: Option<Invoker>
    var functor: Handle
    const ledger: Ledger<A, R>
    const returnsVoid: bool

    function Slot(): L.Slot
      reads this
    {
      L.Slot(manager, invoker, functor)
    }

    /** `empty()`. */
    predicate IsEmpty()
      reads this
    {
      manager.None? && invoker.None?
    }

    /** The invoker agrees with the result type: a void invoker exactly in the void specialisation. */
    predicate Typed()
      reads this
    {
      invoker.Some? ==> invoker.value.IsVoid() == returnsVoid
    }

    /** Construct without a target: `function_base()` and `invoker(0)`. */
    constructor (ledger: Ledger<A, R>, returnsVoid: bool)
      requires ledger.Valid()
      modifies ledger
      ensures ledger.Valid() && ledger.wrappers == old(ledger.wrappers) + {this}
      ensures this.ledger == ledger && this.returnsVoid == returnsVoid && IsEmpty()
      ensures this !in old(ledger.wrappers)
      ensures ledger.World() == L.ConstructEmpty(old(ledger.World()), this)
    {
      manager := None;
      invoker := None;
      functor := Null;
      this.ledger := ledger;
      this.returnsVoid := returnsVoid;
      new;
      ghost var w0 := ledger.World();
      ledger.wrappers := ledger.wrappers + {this};
      assert ledger.World().slots == w0.slots[this := L.EmptySlot];
      L.ConstructEmptyPreservesOwned(w0, this);
    }

    /** Constructor from a function object (`BOOST_FUNCTION_FUNCTION(const Functor&)`). When the
        clone throws, the constructor does not complete: `f` is then no wrapper (it is not in
        `ledger.wrappers`) and the ledger is as before. */
    static method FromFunctionObject(ledger: Ledger<A, R>, obj: FunctionObject<A, R>, returnsVoid: bool)
      returns (f: Function<A, R>, status: L.Status)
      requires ledger.Valid()
      modifies ledger
      ensures ledger.Valid() && fresh(f) && f.ledger == ledger && f.returnsVoid == returnsVoid
      ensures f !in old(ledger.wrappers)
      ensures L.Outcome(ledger.World(), status) == L.ConstructFromObject(old(ledger.World()), f, obj, returnsVoid)
      ensures ledger.wrappers == if status == L.Completed then old(ledger.wrappers) + {f} else old(ledger.wrappers)
    {
      ghost var w0 := ledger.World();
      f := new Function(ledger, returnsVoid);
      ghost var w1 := ledger.World();
      status := L.Completed;
      if !obj.hasEmptyTarget {
        status := f.AssignTo(FunctionObjManager, GetFunctionObjInvoker(returnsVoid), ObjectTarget(obj.call, obj.callConst));
        if status == L.BadAlloc {
          Unregister(ledger, f, w0, w1);
        }
      }
    }

    /** Constructor from a function pointer (`BOOST_FUNCTION_FUNCTION(OtherR (*f)(...))`); a null
        pointer gives an empty wrapper. A throwing clone is handled as in `FromFunctionObject`. */
    static method FromFunctionPointer(ledger: Ledger<A, R>, p: FunctionPointer<A, R>, returnsVoid: bool)
      returns (f: Function<A, R>, status: L.Status)
      requires ledger.Valid()
      modifies ledger
      ensures ledger.Valid() && fresh(f) && f.ledger == ledger && f.returnsVoid == returnsVoid
      ensures f !in old(ledger.wrappers)
      ensures L.Outcome(ledger.World(), status) == L.ConstructFromPointer(old(ledger.World()), f, p, returnsVoid)
      ensures ledger.wrappers == if status == L.Completed then old(ledger.wrappers) + {f} else old(ledger.wrappers)
    {
      ghost var w0 := ledger.World();
      f := new Function(ledger, returnsVoid);
      ghost var w1 := ledger.World();
      status := L.Completed;
      if p.Some? {
        status := f.AssignTo(FunctionPtrManager, GetFunctionInvoker(returnsVoid), PointerTarget(p.value));
        if status == L.BadAlloc {
          Unregister(ledger, f, w0, w1);
        }
      }
    }

    /** Copy constructor: copies `src`'s invoker and manager and clones its target through its
        manager; an empty `src` gives an empty copy. */
    static method CopyOf(src: Function<A, R>) returns (f: Function<A, R>, status: L.Status)
      requires src.ledger.Valid() && src in src.ledger.wrappers
      modifies src.ledger
      ensures src.ledger.Valid() && fresh(f) && f.ledger == src.ledger && f.returnsVoid == src.returnsVoid
      ensures f !in old(src.ledger.wrappers)
      ensures L.Outcome(src.ledger.World(), status) == L.ConstructCopy(old(src.ledger.World()), f, src)
      ensures src.ledger.wrappers == if status == L.Completed then old(src.ledger.wrappers) + {f} else old(src.ledger.wrappers)
    {
      var ledger := src.ledger;
      ghost var w0 := ledger.World();
      assert w0.slots[src] == src.Slot();
      f := new Function(ledger, src.returnsVoid);
      ghost var w1 := ledger.World();
      status := L.Completed;
      if !src.IsEmpty() {
        status := f.AssignTo(src.manager.value, src.invoker.value, ledger.live[src.functor]);
        if status == L.BadAlloc {
          Unregister(ledger, f, w0, w1);
        }
      }
    }

    /** A constructor that threw leaves no object behind: take the half-built `f`, which the
        failed clone left as it was just after `ConstructEmpty`, out of the registry again. */
    static ghost method Unregister(ledger: Ledger<A, R>, f: Function<A, R>, w0: L.World<Function<A, R>, A, R>, w1: L.World<Function<A, R>, A, R>)
      requires L.Owned(w0) && f !in w0.slots && w1 == L.ConstructEmpty(w0, f)
      requires ledger.Valid() && ledger.World() == w1 && f in ledger.wrappers
      modifies ledger
      ensures ledger.Valid() && ledger.wrappers == old(ledger.wrappers) - {f}
      ensures ledger.World() == w0
    {
      ledger.wrappers := ledger.wrappers - {f};
      assert ledger.World().slots == w0.slots;
    }

    /** The destructor: `clear()`; the wrapper then no longer exists. */
    method Destroy()
      requires ledger.Valid() && this in ledger.wrappers
      modifies this, ledger
      ensures ledger.Valid() && ledger.wrappers == old(ledger.wrappers) - {this}
      ensures ledger.World() == L.Destroy(old(ledger.World()), this)
    {
      ghost var w0 := ledger.World();
      Clear();
      ghost var w1 := ledger.World();
      ledger.wrappers := ledger.wrappers - {this};
      assert ledger.World().slots == w1.slots - {this};
      L.DestroyPreservesOwned(w0, this);
    }

    /** `swap(other)`: three `std::swap`s of `manager`, `functor` and `invoker`. */
    method Swap(other: Function<A, R>)
      requires ledger.Valid() && this in ledger.wrappers && other in ledger.wrappers
      requires other.returnsVoid == returnsVoid
      modifies this, other
      ensures ledger.Valid()
      ensures ledger.World() == L.Swap(old(ledger.World()), this, other)
    {
      ghost var w0 := ledger.World();
      var m := manager;
      manager := other.manager;
      other.manager := m;
      var fp := functor;
      functor := other.functor;
      other.functor := fp;
      var i := invoker;
      invoker := other.invoker;
      other.invoker := i;
      assert this.Slot() == w0.slots[other] && other.Slot() == w0.slots[this];
      forall w | w in ledger.wrappers && w != this && w != other
        ensures w.Slot() == w0.slots[w]
      {
      }
      assert ledger.World().slots == w0.slots[this := w0.slots[other]][other := w0.slots[this]];
      L.SwapPreservesOwned(w0, this, other);
    }

    /** `operator()`: asserts the wrapper is not empty, runs `policy.precall`, the invoker with
        `is_const = false`, then `policy.postcall`, and returns the invoker's result (nothing in
        the void specialisation). */
    method Call(args: A) returns (result: Option<R>, steps: seq<Step<R>>)
      requires ledger.Valid() && this in ledger.wrappers && !IsEmpty()
      ensures steps == [Precall, InvokerCalled(false, L.Dispatch(ledger.World(), this, false, args)), Postcall]
      ensures result == steps[1].invocation.result
      ensures result.None? <==> returnsVoid
    {
      assert ledger.World().slots[this] == Slot();
      steps := [Precall];
      var r := Invoke(invoker.value, ledger.live[functor], false, args);
      steps := steps + [InvokerCalled(false, r)];
      steps := steps + [Postcall];
      result := r.result;
    }

    /** `operator() const`: as `Call`, with `is_const = true`. */
    method CallConst(args: A) returns (result: Option<R>, steps: seq<Step<R>>)
      requires ledger.Valid() && this in ledger.wrappers && !IsEmpty()
      ensures steps == [Precall, InvokerCalled(true, L.Dispatch(ledger.World(), this, true, args)), Postcall]
      ensures result == steps[1].invocation.result
      ensures result.None? <==> returnsVoid
    {
      assert ledger.World().slots[this] == Slot();
      steps := [Precall];
      var r := Invoke(invoker.value, ledger.live[functor], true, args);
      steps := steps + [InvokerCalled(true, r)];
      steps := steps + [Postcall];
      result := r.result;
    }

    /** `clear()`: destroy the target through the manager if there is one, then null the
        manager and the invoker. */
    method Clear()
      requires ledger.Valid() && this in ledger.wrappers
      modifies this, ledger
      ensures ledger.Valid() && ledger.wrappers == old(ledger.wrappers)
      ensures ledger.World() == L.Clear(old(ledger.World()), this)
    {
      ghost var w0 := ledger.World();
      assert w0.slots[this] == Slot();
      if manager.Some? {
        functor := ledger.DestroyFunctor(functor);
      }
      manager := None;
      invoker := None;
      assert ledger.World().slots == L.Clear(w0, this).slots;
      L.ClearPreservesOwned(w0, this);
    }

    /** The set-up of a new target on an empty wrapper (`assign_to`, and the same lines inline
        in the constructors, `operator=` and `set`), with the clone done before `invoker` and
        `manager` are written, so that a throwing clone leaves the wrapper empty. */
    method AssignTo(m: Manager, inv: Invoker, t: Target<A, R>) returns (status: L.Status)
      requires ledger.Valid() && this in ledger.wrappers && IsEmpty()
      requires ManagerFits(m, t) && Fits(inv, t) && inv.IsVoid() == returnsVoid
      modifies this, ledger
      ensures ledger.Valid() && ledger.wrappers == old(ledger.wrappers)
      ensures L.Outcome(ledger.World(), status) == L.AssignTo(old(ledger.World()), this, m, inv, t)
    {
      ghost var w0 := ledger.World();
      assert w0.slots[this] == Slot();
      var h := ledger.CloneFunctor(t);
      if h.None? {
        status := L.BadAlloc;
        assert ledger.World().slots == w0.slots;
      } else {
        invoker := Some(inv);
        manager := Some(m);
        functor := h.value;
        status := L.Completed;
        assert ledger.World().slots == w0.slots[this := Slot()];
      }
      L.AssignToPreservesOwned(w0, this, m, inv, t);
    }

    /** `operator=(const Functor&)`: `clear()`, then the new target unless `has_empty_target`. */
    method AssignObject(obj: FunctionObject<A, R>) returns (status: L.Status)
      requires ledger.Valid() && this in ledger.wrappers
      modifies this, ledger
      ensures ledger.Valid() && ledger.wrappers == old(ledger.wrappers)
      ensures L.Outcome(ledger.World(), status) == L.AssignObject(old(ledger.World()), this, obj, returnsVoid)
    {
      Clear();
      status := L.Completed;
      if !obj.hasEmptyTarget {
        status := AssignTo(FunctionObjManager, GetFunctionObjInvoker(returnsVoid), ObjectTarget(obj.call, obj.callConst));
      }
    }

    /** `set(const Functor&)`: the same steps as `operator=`. */
    method SetObject(obj: FunctionObject<A, R>) returns (status: L.Status)
      requires ledger.Valid() && this in ledger.wrappers
      modifies this, ledger
      ensures ledger.Valid() && ledger.wrappers == old(ledger.wrappers)
      ensures L.Outcome(ledger.World(), status) == L.AssignObject(old(ledger.World()), this, obj, returnsVoid)
    {
      status := AssignObject(obj);
    }

    /** `operator=(OtherR (*f)(...))`: `clear()`, then the new target unless the pointer is null. */
    method AssignPointer(p: FunctionPointer<A, R>) returns (status: L.Status)
      requires ledger.Valid() && this in ledger.wrappers
      modifies this, ledger
      ensures ledger.Valid() && ledger.wrappers == old(ledger.wrappers)
      ensures L.Outcome(ledger.World(), status) == L.AssignPointer(old(ledger.World()), this, p, returnsVoid)
    {
      Clear();
      status := L.Completed;
      if p.Some? {
        status := AssignTo(FunctionPtrManager, GetFunctionInvoker(returnsVoid), PointerTarget(p.value));
      }
    }

    /** `set(OtherR (*f)(...))`: the same steps as `operator=`. */
    method SetPointer(p: FunctionPointer<A, R>) returns (status: L.Status)
      requires ledger.Valid() && this in ledger.wrappers
      modifies this, ledger
      ensures ledger.Valid() && ledger.wrappers == old(ledger.wrappers)
      ensures L.Outcome(ledger.World(), status) == L.AssignPointer(old(ledger.World()), this, p, returnsVoid)
    {
      status := AssignPointer(p);
    }

    /** `operator=(const BOOST_FUNCTION_FUNCTION&)`: `clear()`, then, if `f` is not empty (read
        after the clear, so `a = a` finds it empty), take `f`'s invoker and manager and clone
        its target. The source's fallback `f.manager ? ... : f.functor` never shares here: a
        wrapper that is not empty has a manager. */
    method AssignFunction(f: Function<A, R>) returns (status: L.Status)
      requires ledger.Valid() && this in ledger.wrappers && f in ledger.wrappers
      requires f.returnsVoid == returnsVoid
      modifies this, ledger
      ensures ledger.Valid() && ledger.wrappers == old(ledger.wrappers)
      ensures L.Outcome(ledger.World(), status) == L.AssignWrapper(old(ledger.World()), this, f)
    {
      Clear();
      assert ledger.World().slots[f] == f.Slot();
      status := L.Completed;
      if !f.IsEmpty() {
        status := AssignTo(f.manager.value, f.invoker.value, ledger.live[f.functor]);
      }
    }

    /** `set(const BOOST_FUNCTION_FUNCTION&)`: the same steps as `operator=`. */
    method SetFunction(f: Function<A, R>) returns (status: L.Status)
      requires ledger.Valid() && this in ledger.wrappers && f in ledger.wrappers
      requires f.returnsVoid == returnsVoid
      modifies this, ledger
      ensures ledger.Valid() && ledger.wrappers == old(ledger.wrappers)
      ensures L.Outcome(ledger.World(), status) == L.AssignWrapper(old(ledger.World()), this, f)
    {
      status := AssignFunction(f);
    }
  }

  /** The free `swap(f1, f2)`: delegates to `f1.swap(f2)`. */
  method Swap<A, R>(f1: Function<A, R>, f2: Function<A, R>)
    requires f1.ledger.Valid() && f1 in f1.ledger.wrappers && f2 in f1.ledger.wrappers
    requires f1.returnsVoid == f2.returnsVoid
    modifies f1, f2
    ensures f1.ledger.Valid()
    ensures f1.ledger.World() == L.Swap(old(f1.ledger.World()), f1, f2)
  {
    f1.Swap(f2);
  }
}
