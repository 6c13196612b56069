/**
 * The invoker structs of boost/function/function_template.hpp (non-virtual path).
 *
 * Each struct has one static `invoke(any_pointer, bool is_const, args...)` that
 * reinterprets the stored target and calls it. A wrapper records which one it uses
 * in its `invoker` field; the value `Invoker` below stands for that function pointer.
 * The wrapped callables are opaque functions from an argument tuple `A` to a result `R`.
 */
module FunctionInvokers {
  import opened Optional

  /** A target as stored behind a wrapper's `functor` handle. */
  datatype Target<!A, R> =
    | PointerTarget(fn: A -> R)                       // a (non-null) function pointer
    | ObjectTarget(call: A -> R, callConst: A -> R)   // a function object: its operator() and its operator() const

  /** A function object handed to a constructor, `operator=` or `set`; `hasEmptyTarget`
      is the abstract `has_empty_target(&f)` test on it. */
  datatype FunctionObject<!A, R> = FunctionObject(call: A -> R, callConst: A -> R, hasEmptyTarget: bool)

  /** A function pointer handed to a constructor, `operator=` or `set`; None is the null pointer. */
  type FunctionPointer<!A, R> = Option<A -> R>

  /** The four `invoke` functions a wrapper's `invoker` can point to. */
  datatype Invoker =
    | FunctionInvoker          // BOOST_FUNCTION_FUNCTION_INVOKER
    | VoidFunctionInvoker      // BOOST_FUNCTION_VOID_FUNCTION_INVOKER
    | FunctionObjInvoker       // BOOST_FUNCTION_FUNCTION_OBJ_INVOKER
    | VoidFunctionObjInvoker   // BOOST_FUNCTION_VOID_FUNCTION_OBJ_INVOKER
  {
    predicate IsVoid() { VoidFunctionInvoker? || VoidFunctionObjInvoker? }
    predicate ForPointers() { FunctionInvoker? || VoidFunctionInvoker? }
  }

  /** The two `functor_manager<F, Allocator>::manage` functions a wrapper's `manager` can point to. */
  datatype Manager = FunctionPtrManager | FunctionObjManager

  /** The invoker's reinterpret/static cast is only meaningful on a target of its own kind. */
  predicate Fits<A, R>(inv: Invoker, t: Target<A, R>) {
    inv.ForPointers() <==> t.PointerTarget?
  }

  predicate ManagerFits<A, R>(m: Manager, t: Target<A, R>) {
    m.FunctionPtrManager? <==> t.PointerTarget?
  }

  /** Which call operator of the target an invocation went through. */
  datatype View = Direct | ConstView | MutableView

  /** What one `invoke` did: the operator it called and the value it returned (None for the void invokers). */
  datatype Invocation<R> = Invocation(view: View, result: Option<R>)

  /** The value the target returns when called through `view`. */
  function Run<A, R>(t: Target<A, R>, view: View, args: A): R
    requires view.Direct? <==> t.PointerTarget?
  {
    match t
    case PointerTarget(fn) => fn(args)
    case ObjectTarget(call, callConst) => if view.ConstView? then callConst(args) else call(args)
  }

  /** `BOOST_FUNCTION_GET_FUNCTION_INVOKER`: the invoker chosen for a function pointer. */
  function GetFunctionInvoker(returnsVoid: bool): (inv: Invoker)
    ensures inv.ForPointers() && inv.IsVoid() == returnsVoid
  {
    if returnsVoid then VoidFunctionInvoker else FunctionInvoker
  }

  /** `BOOST_FUNCTION_GET_FUNCTION_OBJ_INVOKER`: the invoker chosen for a function object. */
  function GetFunctionObjInvoker(returnsVoid: bool): (inv: Invoker)
    ensures !inv.ForPointers() && inv.IsVoid() == returnsVoid
  {
    if returnsVoid then VoidFunctionObjInvoker else FunctionObjInvoker
  }

  /**
   * The static `invoke` of each invoker struct. A function-pointer invoker calls the
   * pointer and ignores `isConst`; a function-object invoker calls through a const view
   * exactly when `isConst` is set; the void invokers return nothing.
   */
  function Invoke<A, R>(inv: Invoker, t: Target<A, R>, isConst: bool, args: A): (r: Invocation<R>)
    requires Fits(inv, t)
    ensures t.PointerTarget? ==> r.view == Direct
    ensures t.ObjectTarget? ==> r.view != Direct && (r.view == ConstView <==> isConst)
    ensures r.result.None? <==> inv.IsVoid()
    ensures r.result.Some? ==> r.result.value == Run(t, r.view, args)
  {
    match inv
    case FunctionInvoker => Invocation(Direct, Some(t.fn(args)))
    case VoidFunctionInvoker => Invocation(Direct, None)
    case FunctionObjInvoker =>
      if isConst then Invocation(ConstView, Some(t.callConst(args)))
      else Invocation(MutableView, Some(t.call(args)))
    case VoidFunctionObjInvoker =>
      if isConst then Invocation(ConstView, None) else Invocation(MutableView, None)
  }

  /** A function pointer has no const qualification: both flags give the same invocation. */
  lemma PointerInvokeIgnoresConst<A, R>(inv: Invoker, t: Target<A, R>, args: A)
    requires Fits(inv, t) && t.PointerTarget?
    ensures Invoke(inv, t, true, args) == Invoke(inv, t, false, args)
  {
  }
}
