# Boost.Function's `functionN` wrapper, modelled in Dafny

This project models the class template `BOOST_FUNCTION_FUNCTION` (instantiated as
`function0` … `functionN`) from `include/boost/function/function_template.hpp`. It covers
that class's non-virtual storage path and the invoker structs it binds to.

A wrapper has three fields:

- `manager`: clones and destroys the stored target;
- `invoker`: the static `invoke` of an invoker struct, which calls the target;
- `functor`: the handle of the cloned target.

`empty()` means that the manager and the invoker are both null.

The model has four modules:

- `FunctionInvokers` (`invokers.dfy`): the four invoker structs and the two selectors that
  choose between the value and the `void` invoker. A target is either a function pointer or
  a function object with a mutable and a const call operator. `Invoke` says which of them
  the invoker runs and whether it returns a value.
- `TargetLedger` (`ledger.dfy`): the allocator seen through the manager. It keeps a map of
  live handles. `CloneFunctor` returns a fresh handle, or reports `bad_alloc` when the
  allocator is `Exhausted`: it holds `capacity` targets already, or it has issued its
  `quota` of handles, after which releasing a target does not help. `DestroyFunctor`
  releases a live handle.
- `WrapperLifecycle` (`lifecycle.dfy`): every wrapper operation as a function on a `World`.
  A `World` is the ledger plus each wrapper's three fields, keyed by wrapper identity. The
  predicate `Owned` states the ownership discipline:
  - every non-empty wrapper holds exactly one live handle;
  - no two wrappers hold the same handle;
  - every live handle belongs to some wrapper.

  The lemmas prove that each operation keeps `Owned`, along with the other properties below.
- `FunctionTemplate` (`function_template.dfy`): the class itself. `Function` has the three
  mutable fields and the methods of the source. A `Ledger` object holds the live targets and
  registers the wrappers that exist. Each method ensures that the new `ledger.World()` is the
  matching `WrapperLifecycle` operation applied to the old one, and keeps `ledger.Valid()`,
  whose core is `Owned`.

The `void` specialisation (`function_template.hpp:1217-1785`) is the same class with
`returnsVoid` set. The selectors then pick the void invokers, and calls return no value
(`function_template.hpp:1386-1417`).

Constructors that can throw `bad_alloc` out of the clone are the static methods
`FromFunctionObject`, `FromFunctionPointer` and `CopyOf`. When the clone fails they return
`BadAlloc`, the ledger is unchanged, and the half-built object is not a registered wrapper,
just as a C++ object whose constructor threw never exists.

These behaviours come from headers outside this model, and the model assumes them:

- `function_base()` leaves `functor` null;
- `manager(h, destroy_functor)` returns the null pointer;
- `empty()` is "no manager and no invoker".

`function_base.hpp` is not part of this model.

## Model

| member | source | states |
|---|---|---|
| FunctionInvokers.GetFunctionInvoker | include/boost/function/function_template.hpp:565-591 | the pointer selector gives an invoker for function pointers, and the void one exactly when the result type is void |
| FunctionInvokers.GetFunctionObjInvoker | include/boost/function/function_template.hpp:593-619 | the object selector gives an invoker for function objects, and the void one exactly when the result type is void |
| FunctionInvokers.Invoke | include/boost/function/function_template.hpp:363-376 | a pointer invoker calls the pointer directly; an object invoker uses the const operator exactly when `is_const` is set and the mutable one otherwise; the void invokers return no value and the others return what the chosen operator returns |
| FunctionInvokers.PointerInvokeIgnoresConst | include/boost/function/function_template.hpp:109-115 | the pointer invokers give the same result whatever `is_const` is |
| TargetLedger.CloneFunctor | include/boost/function/function_template.hpp:899-902 | a clone throws exactly when the allocator is exhausted, and then leaves the heap as it was; otherwise it returns a handle never issued before, whose target is the source target, with every other live target kept |
| TargetLedger.DestroyFunctor | include/boost/function/function_template.hpp:846-847 | destroying a live handle removes exactly that handle from the live set and leaves the other targets as they were |
| WrapperLifecycle.ConstructEmpty | include/boost/function/function_template.hpp:658-663 | the default constructor adds an empty wrapper, allocates nothing and leaves the other wrappers unchanged |
| WrapperLifecycle.Clear | include/boost/function/function_template.hpp:836-852 | `clear()` leaves the wrapper empty with a null functor, releases its target only when it had a manager, and changes nothing else |
| WrapperLifecycle.Destroy | include/boost/function/function_template.hpp:781-782 | the destructor releases the wrapper's target once and removes only that wrapper |
| WrapperLifecycle.Swap | include/boost/function/function_template.hpp:784-793 | `swap` exchanges the two wrappers' fields and changes neither the heap nor any other wrapper |
| WrapperLifecycle.AssignTo | include/boost/function/function_template.hpp:1160-1197 | target set-up, corrected to clone first: `bad_alloc` exactly when the allocator is exhausted, and then the world is unchanged; otherwise the wrapper gets the manager, the invoker and a fresh handle to a copy of the target, and no other wrapper changes |
| WrapperLifecycle.AssignToAsWritten | include/boost/function/function_template.hpp:1193-1195 | the set-up in the source's order: when the clone throws, the wrapper keeps the new manager and invoker next to its old functor |
| WrapperLifecycle.ConstructFromObject | include/boost/function/function_template.hpp:680-717 | a function object with an empty target gives an empty wrapper and allocates nothing; otherwise `bad_alloc` exactly when the allocator is exhausted, with no wrapper and the world unchanged, and on completion the new wrapper holds the object manager, the object invoker for the result type and a fresh handle to a copy of the object, the only new live target, with every other wrapper unchanged |
| WrapperLifecycle.ConstructFromPointer | include/boost/function/function_template.hpp:719-760 | a null pointer gives an empty wrapper and allocates nothing; otherwise `bad_alloc` exactly when the allocator is exhausted, with no wrapper and the world unchanged, and on completion the new wrapper holds the pointer manager, the pointer invoker for the result type and a fresh handle to the pointer, with every other wrapper unchanged |
| WrapperLifecycle.ConstructCopy | include/boost/function/function_template.hpp:763-779 | copying an empty wrapper gives an empty wrapper; otherwise `bad_alloc` exactly when the allocator is exhausted, with the world unchanged, and a completed copy holds the source's manager and invoker and a fresh handle to a copy of the source's target, the only new live target, while the source and every other wrapper keep their fields |
| WrapperLifecycle.AssignObject | include/boost/function/function_template.hpp:869-907 | in the clone-first order: `operator=(Functor)` is `clear()`, and then nothing more when the object's target is empty; otherwise `bad_alloc` exactly when the allocator is exhausted after the clear, leaving the wrapper cleared, and on completion the wrapper holds the object manager and invoker and a handle, live in neither the old nor the cleared heap, to a copy of the object, with every other wrapper unchanged |
| WrapperLifecycle.AssignPointer | include/boost/function/function_template.hpp:909-949 | in the clone-first order: `operator=` from a pointer is `clear()`, and then nothing more when the pointer is null; otherwise `bad_alloc` exactly when the allocator is exhausted after the clear, leaving the wrapper cleared, and on completion the wrapper holds the pointer manager and invoker and a fresh handle to the pointer, with every other wrapper unchanged |
| WrapperLifecycle.AssignWrapper | include/boost/function/function_template.hpp:1044-1062 | in the clone-first order: `b = a` clears `b` first; `bad_alloc` exactly when `a` is another, non-empty wrapper and the allocator is exhausted after the clear, leaving `b` cleared; on completion with such an `a`, `b` holds `a`'s manager and invoker and a fresh handle to a copy of `a`'s target, with `a` and every other wrapper unchanged |
| WrapperLifecycle.Dispatch | include/boost/function/function_template.hpp:795-834 | a call runs the stored target: the pointer directly; a function object through its const operator exactly when the const entry point is used; no value exactly for a void invoker |
| WrapperLifecycle.ConstructEmptyPreservesOwned | include/boost/function/function_template.hpp:658-663 | the default constructor keeps the ownership discipline |
| WrapperLifecycle.ClearPreservesOwned | include/boost/function/function_template.hpp:836-852 | `clear()` keeps the ownership discipline |
| WrapperLifecycle.DestroyPreservesOwned | include/boost/function/function_template.hpp:781-782 | the destructor keeps the ownership discipline |
| WrapperLifecycle.SwapPreservesOwned | include/boost/function/function_template.hpp:784-793 | `swap` keeps the ownership discipline |
| WrapperLifecycle.AssignToPreservesOwned | include/boost/function/function_template.hpp:1160-1197 | the corrected set-up on an empty wrapper keeps the ownership discipline, whether the clone completes or fails |
| WrapperLifecycle.ConstructFromObjectPreservesOwned | include/boost/function/function_template.hpp:680-717 | construction from a function object keeps the ownership discipline |
| WrapperLifecycle.ConstructFromPointerPreservesOwned | include/boost/function/function_template.hpp:719-760 | construction from a function pointer keeps the ownership discipline |
| WrapperLifecycle.ConstructCopyPreservesOwned | include/boost/function/function_template.hpp:763-779 | the copy constructor keeps the ownership discipline |
| WrapperLifecycle.AssignObjectPreservesOwned | include/boost/function/function_template.hpp:869-907 | `operator=`/`set` from a function object, in the clone-first order, keeps the ownership discipline |
| WrapperLifecycle.AssignPointerPreservesOwned | include/boost/function/function_template.hpp:909-949 | `operator=`/`set` from a function pointer, in the clone-first order, keeps the ownership discipline |
| WrapperLifecycle.AssignWrapperPreservesOwned | include/boost/function/function_template.hpp:1044-1062 | assignment from another wrapper, in the clone-first order and including self-assignment, keeps the ownership discipline |
| WrapperLifecycle.LiveHandleHasOneOwner | include/boost/function/function_template.hpp:781-782 | under the discipline, every live target belongs to exactly one non-empty wrapper, so the destructor that releases it releases it once |
| WrapperLifecycle.ClearIdempotent | include/boost/function/function_template.hpp:836-852 | a second `clear()` releases nothing and changes nothing |
| WrapperLifecycle.SwapTwiceRestores | include/boost/function/function_template.hpp:784-793 | swapping twice restores both wrappers, and swapping a wrapper with itself changes nothing |
| WrapperLifecycle.SelfAssignmentEmpties | include/boost/function/function_template.hpp:1044-1062 | `a = a` releases `a`'s target once, clones nothing and leaves `a` empty |
| WrapperLifecycle.AssignFromEmptyAllocatesNothing | include/boost/function/function_template.hpp:1044-1062 | assigning from an empty wrapper is exactly `clear()` of the destination: it allocates nothing and leaves the destination empty |
| WrapperLifecycle.CopyOwnsDistinctClone | include/boost/function/function_template.hpp:763-779 | a copy of a non-empty wrapper has the source's manager and invoker and a live handle of its own, distinct from the source's, to an equal target; the source is unchanged |
| WrapperLifecycle.CopySurvivesSourceDestroy | include/boost/function/function_template.hpp:763-779 | after a copy, destroying the source leaves the copy's fields and target live, and every call on the copy gives what a call on the source gave |
| WrapperLifecycle.AssignSurvivesSourceDestroy | include/boost/function/function_template.hpp:1044-1062 | after `b = a` with `a` non-empty, `b` and `a` hold distinct handles, `a` is unchanged, and destroying `a` leaves `b`'s fields and target live and every call on `b` giving what a call on `a` gave |
| WrapperLifecycle.CallRunsWrappedObject | include/boost/function/function_template.hpp:363-376 | a wrapper built from a function object calls its const operator on the const entry point and its mutable operator otherwise, and returns nothing when void |
| WrapperLifecycle.CallRunsWrappedPointer | include/boost/function/function_template.hpp:109-115 | a wrapper built from a non-null pointer calls the pointer on either entry point, and returns nothing when void |
| WrapperLifecycle.FailedCloneLeavesDanglingWrapper | include/boost/function/function_template.hpp:1055-1058 | in the source's order, a clone that throws leaves a non-empty wrapper that holds no live handle, so the ownership discipline is broken |
| WrapperLifecycle.FailedCloneLeavesEmpty | include/boost/function/function_template.hpp:1160-1197 | with the clone first, the same failure leaves the wrapper empty, the heap untouched and the discipline kept |
| WrapperLifecycle.FailedAssignmentAfterClear | include/boost/function/function_template.hpp:869-907 | with the allocator's quota spent, assigning a function object to a non-empty wrapper releases the old target exactly once, then throws, leaving the wrapper empty and ownership kept (clone-first order) |
| WrapperLifecycle.AsWrittenCounterexample | include/boost/function/function_template.hpp:899-902 | a concrete allocator with no room and one empty wrapper, on which the set-up of `operator=(Functor)` as written breaks the discipline |
| FunctionTemplate.Ledger.CloneFunctor | include/boost/function/function_template.hpp:899-902 | the mutable ledger's clone does exactly what `TargetLedger.CloneFunctor` specifies |
| FunctionTemplate.Ledger.DestroyFunctor | include/boost/function/function_template.hpp:846-847 | the mutable ledger's destroy does exactly what `TargetLedger.DestroyFunctor` specifies and returns the null handle |
| FunctionTemplate.Function.constructor | include/boost/function/function_template.hpp:658-663 | a new empty wrapper is registered, and the state becomes `ConstructEmpty` of the old state |
| FunctionTemplate.Function.FromFunctionObject | include/boost/function/function_template.hpp:680-717 | the state becomes `ConstructFromObject` of the old state; only a completed construction registers the wrapper |
| FunctionTemplate.Function.FromFunctionPointer | include/boost/function/function_template.hpp:719-760 | the state becomes `ConstructFromPointer` of the old state; only a completed construction registers the wrapper |
| FunctionTemplate.Function.CopyOf | include/boost/function/function_template.hpp:763-779 | the state becomes `ConstructCopy` of the old state; only a completed copy registers the wrapper |
| FunctionTemplate.Function.Destroy | include/boost/function/function_template.hpp:781-782 | the state becomes `Destroy` of the old state, and the wrapper is no longer registered |
| FunctionTemplate.Function.Swap | include/boost/function/function_template.hpp:784-793 | three field swaps give `Swap` of the old state, and the ownership discipline holds afterwards |
| FunctionTemplate.Function.Call | include/boost/function/function_template.hpp:795-814 | the steps are precall, then the invoker with `is_const = false` recording the invocation `Dispatch` gives for the mutable flag, then postcall; the result is that invocation's result, absent exactly in the void specialisation |
| FunctionTemplate.Function.CallConst | include/boost/function/function_template.hpp:816-834 | the steps are precall, then the invoker with `is_const = true` recording the invocation `Dispatch` gives for the const flag, then postcall; the result is that invocation's result, absent exactly in the void specialisation |
| FunctionTemplate.Function.Clear | include/boost/function/function_template.hpp:836-852 | the state becomes `Clear` of the old state, and the ownership discipline holds afterwards |
| FunctionTemplate.Function.AssignTo | include/boost/function/function_template.hpp:1160-1197 | on an empty wrapper, the state and status are the corrected `AssignTo` |
| FunctionTemplate.Function.AssignObject | include/boost/function/function_template.hpp:869-907 | the state and status are `AssignObject` of the old state |
| FunctionTemplate.Function.SetObject | include/boost/function/function_template.hpp:965-1001 | `set(Functor)` has the same effect as `operator=(Functor)` |
| FunctionTemplate.Function.AssignPointer | include/boost/function/function_template.hpp:909-949 | the state and status are `AssignPointer` of the old state |
| FunctionTemplate.Function.SetPointer | include/boost/function/function_template.hpp:1003-1041 | `set` from a pointer has the same effect as `operator=` from a pointer |
| FunctionTemplate.Function.AssignFunction | include/boost/function/function_template.hpp:1044-1062 | the state and status are `AssignWrapper` of the old state, with the source read after the clear |
| FunctionTemplate.Function.SetFunction | include/boost/function/function_template.hpp:1064-1081 | `set(functionN)` has the same effect as `operator=(functionN)` |
| FunctionTemplate.Swap | include/boost/function/function_template.hpp:1789-1807 | the free `swap(f1, f2)` has the effect of `f1.swap(f2)` |

## Left out

- The `BOOST_FUNCTION_USE_VIRTUAL_FUNCTIONS` storage path (`impl`, `clone`, `destroy`,
  `call`) is not modelled.
- Allocator mechanics (`rebind`, `allocate`, placement `new`) are not modelled. A clone
  either yields a fresh handle or fails with `bad_alloc`. Failure happens exactly when the
  ledger holds `capacity` targets or has issued `quota` handles. An allocator that throws
  once and then recovers is not modelled: a failed clone consumes nothing, so the next
  clone fails too until a target is released (capacity) or forever (quota).
- `functor_manager` is not part of this model. A function pointer gets a ledger handle like a
  function object does, so its clone can also fail. This is an over-approximation of a
  manager that may store the pointer in place.
- Casts through `any_pointer`, the `unusable` return type of the
  `BOOST_NO_VOID_RETURNS` invokers, the `BOOST_WEAK_FUNCTION_TEMPLATE_ORDERING` and
  `BOOST_NO_TEMPLATE_PARTIAL_SPECIALIZATION` workarounds, and arity stamping are compiler
  details with no behaviour of their own.
- The `Mixin` base is not modelled. The `Policy` object is modelled only as the order of its
  `precall` and `postcall` steps.
- Exceptions thrown by a target are not modelled. `Call` and `CallConst` state the step order
  for calls that return normally. Postcall is not claimed to run when the target throws.
- The wrapped callables are opaque values. Their own semantics, and any state a mutable
  `operator()` changes, are not modelled.
- The result type is a per-object flag `returnsVoid`, not a template parameter. Assignment
  between wrappers requires both wrappers to have the same flag, as the C++ types force.
- All wrappers of one `Ledger` share its allocator. Operations between wrappers of
  different ledgers are not modelled.
- `WrapperLifecycle.AssignWrapper` keeps the source's fallback that shares the functor of a
  source without a manager. The ownership discipline makes that branch unreachable, so
  `FunctionTemplate.Function.AssignFunction` always clones.
- `FunctionTemplate.Function.AssignTo`, and through it every assignment and `set`, implements
  the corrected order (clone first). It does not model the source's order; see "Findings".
- WrapperLifecycle.AssignObject: built on the clone-first `AssignTo`; lines 899-902 and
  995-998 write `invoker` and `manager` before the clone, so where the clone throws the
  source leaves a non-empty wrapper, not the cleared one this member states.
- WrapperLifecycle.AssignPointer: built on the clone-first `AssignTo`; lines 941-944 and
  1034-1038 write `invoker` and `manager` before the clone, so a throwing clone leaves the
  source's wrapper non-empty.
- WrapperLifecycle.AssignWrapper: built on the clone-first `AssignTo`; lines 1055-1058 and
  1075-1078 write `invoker` and `manager` before the clone, so a throwing clone leaves the
  source's wrapper non-empty.
- WrapperLifecycle.AssignObjectPreservesOwned: proved for the clone-first order only; in
  the source's order a throwing clone breaks the discipline (see "Findings").
- WrapperLifecycle.AssignPointerPreservesOwned: proved for the clone-first order only.
- WrapperLifecycle.AssignWrapperPreservesOwned: proved for the clone-first order only.
- In `operator=` and `set`, the code writes `invoker` and `manager` before it clones the
  target. So when the clone throws, the wrapper is left non-empty, not empty.
  `WrapperLifecycle.AssignToAsWritten` models that order; every other assignment member
  clones first, and "Findings" records the difference.

## Findings

| source | as written | input that shows it | evidently intended | confidence | as-written member | corrected member |
|---|---|---|---|---|---|---|
| include/boost/function/function_template.hpp:1055-1058 | `operator=`, `set` and `assign_to` set `invoker` and `manager` before `functor = manager(..., clone_functor)` (also lines 899-902, 941-944, 995-998, 1034-1038, 1075-1078, 1193-1195) | `b = a` or `b = functor` (a function object) while the allocator throws `bad_alloc`: after the `clear()`, `b` ends non-empty with a null functor, so a later call invokes a missing target and `clear()` or the destructor destroys a handle that is not live. The function-pointer forms at 941-944 and 1034-1038 have the same order, but they fail only if cloning a pointer can throw, which depends on `functor_manager`, not part of this model | the clone runs first, so a throwing clone leaves the wrapper empty, as it is after the preceding `clear()` | not executed | WrapperLifecycle.AssignToAsWritten | WrapperLifecycle.AssignTo |
