/**
 * Behaviors and the continuation decorator (src/behavior.cpp).
 *
 * A behavior implementation is either a plain partial function with a
 * timeout definition, or a continuation decorator wrapping another
 * implementation together with a continuation. The decorator's invoke is
 * optional-bind: run the decorated behavior, pipe a result through the
 * continuation, decline when the decorated behavior declines. Matching
 * queries (`defined_at`) and the timeout path (`handle_timeout`) go to the
 * decorated behavior only.
 */
module Behavior {
  import opened Wrappers

  /** A message (the runtime's `any_tuple`); its contents are not interpreted here. */
  type Tuple(==, !new)

  /** Identifies the callback a timeout definition runs when the timeout fires. */
  type TimeoutHandler = nat

  /** A relative idle timeout; `NoTimeout` is the invalid (infinite) duration. */
  datatype Duration = NoTimeout | After(micros: nat)

  /** A `generic_timeout_definition`: how long to wait and what to run then. */
  datatype TimeoutDefinition = TimeoutDefinition(timeout: Duration, handler: TimeoutHandler)

  /** The timeout definition of a partial function that has none. */
  const NoTimeoutDefinition := TimeoutDefinition(NoTimeout, 0)

  /** A partial function from a message to an optional reply. */
  type PartialFun = Tuple -> Option<Tuple>

  /** A `partial_function` as used for a continuation. */
  datatype PartialFunction = PartialFunction(fun: PartialFun)

  /** Optional bind: the body of `continuation_decorator::invoke_impl`. */
  function Bind(res: Option<Tuple>, k: PartialFun): Option<Tuple>
  {
    match res
    case None => None
    case Some(r) => k(r)
  }

  /**
   * A `behavior_impl`: either a plain partial function with its timeout
   * definition, or a `continuation_decorator` holding the continuation
   * `cont` (m_fun), the decorated implementation (m_decorated, never null
   * since a datatype value cannot be) and the timeout it took from the
   * decorated implementation when it was built.
   */
  datatype BehaviorImpl =
    | Plain(fun: PartialFun, tdef: TimeoutDefinition)
    | Decorated(cont: PartialFun, decorated: BehaviorImpl, timeout: Duration)
  {
    /** `timeout()`: the idle timeout of this implementation. */
    function Timeout(): Duration
    {
      match this
      case Plain(_, tdef) => tdef.timeout
      case Decorated(_, _, t) => t
    }

    /** Every decorator carries the timeout of what it decorates, as its constructor sets it. */
    ghost predicate Valid()
    {
      match this
      case Plain(_, _) => true
      case Decorated(_, inner, t) => t == inner.Timeout() && inner.Valid()
    }

    /** `invoke` (both the const and the non-const overload, which share `invoke_impl`). */
    function Invoke(msg: Tuple): (res: Option<Tuple>)
      ensures res.Some? ==> DefinedAt(msg)
    {
      match this
      case Plain(f, _) => f(msg)
      case Decorated(k, inner, _) => Bind(inner.Invoke(msg), k)
    }

    /** `defined_at`: a decorator asks only the decorated implementation. */
    function DefinedAt(msg: Tuple): bool
    {
      match this
      case Plain(f, _) => f(msg).Some?
      case Decorated(_, inner, _) => inner.DefinedAt(msg)
    }

    /** `handle_timeout`: the timeout handler that runs; a decorator forwards to the decorated one. */
    function HandleTimeout(): TimeoutHandler
    {
      match this
      case Plain(_, tdef) => tdef.handler
      case Decorated(_, inner, _) => inner.HandleTimeout()
    }

    /**
     * `copy(tdef)`: rebinds the timeout definition. A decorator copies the
     * decorated implementation and wraps the copy with the same continuation.
     */
    function Copy(tdef: TimeoutDefinition): (c: BehaviorImpl)
      ensures c.Valid()
      ensures c.Timeout() == tdef.timeout && c.HandleTimeout() == tdef.handler
      ensures forall msg :: c.Invoke(msg) == Invoke(msg)
      ensures forall msg :: c.DefinedAt(msg) == DefinedAt(msg)
    {
      match this
      case Plain(f, _) => Plain(f, tdef)
      case Decorated(k, inner, _) => Decorate(k, inner.Copy(tdef))
    }

    /** The plain partial function at the bottom of a decorator chain. */
    function Innermost(): (p: BehaviorImpl)
      ensures p.Plain?
    {
      match this
      case Plain(_, _) => this
      case Decorated(_, inner, _) => inner.Innermost()
    }

    /** The continuations of a decorator chain, innermost first. */
    function Continuations(): seq<PartialFun>
    {
      match this
      case Plain(_, _) => []
      case Decorated(k, inner, _) => inner.Continuations() + [k]
    }
  }

  /**
   * The `continuation_decorator` constructor: wraps `inner` with the
   * continuation `k` and takes its timeout from `inner`.
   */
  function Decorate(k: PartialFun, inner: BehaviorImpl): (d: BehaviorImpl)
    ensures d.Decorated? && d.decorated == inner && d.cont == k
    ensures d.Timeout() == inner.Timeout()
    ensures inner.Valid() ==> d.Valid()
  {
    Decorated(k, inner, inner.Timeout())
  }

  /** Feeds an optional result through the continuations in order (a left fold of Bind). */
  function RunChain(res: Option<Tuple>, ks: seq<PartialFun>): Option<Tuple>
    decreases |ks|
  {
    if ks == [] then res else RunChain(Bind(res, ks[0]), ks[1..])
  }

  /** A `behavior` handle: a shared, possibly null, pointer to an implementation. */
  datatype Behavior = Behavior(impl: Option<BehaviorImpl>)

  /** `behavior::behavior(const partial_function&)`: shares the partial function's implementation. */
  function FromPartialFunction(pf: PartialFunction): (b: Behavior)
    ensures b.impl.Some? && b.impl.value.Valid()
    ensures forall msg :: b.impl.value.Invoke(msg) == pf.fun(msg)
    ensures forall msg :: b.impl.value.DefinedAt(msg) == pf.fun(msg).Some?
    ensures b.impl.value.Timeout() == NoTimeout
  {
    Behavior(Some(Plain(pf.fun, NoTimeoutDefinition)))
  }

  /**
   * `behavior::add_continuation`: a new behavior decorating this one's
   * implementation with `pf`. The decorator constructor requires a non-null
   * implementation. The receiver is a value and is left as it was.
   */
  function AddContinuation(b: Behavior, pf: PartialFunction): (r: Behavior)
    requires b.impl.Some?
    ensures r.impl.Some? && r.impl.value.Decorated? && r.impl.value.decorated == b.impl.value
    ensures b.impl.value.Valid() ==> r.impl.value.Valid()
    ensures forall msg :: r.impl.value.Invoke(msg) == Bind(b.impl.value.Invoke(msg), pf.fun)
    ensures forall msg :: r.impl.value.DefinedAt(msg) == b.impl.value.DefinedAt(msg)
    ensures r.impl.value.Timeout() == b.impl.value.Timeout()
    ensures r.impl.value.HandleTimeout() == b.impl.value.HandleTimeout()
  {
    Behavior(Some(Decorate(pf.fun, b.impl.value)))
  }

  // ---------------------------------------------------------------------
  // Laws of the decorator algebra
  // ---------------------------------------------------------------------

  /** Declination propagates: a declined message stays declined through every continuation. */
  lemma {:induction false} DeclinedStaysDeclined(ks: seq<PartialFun>)
    ensures RunChain(None, ks) == None
    decreases |ks|
  {
    if ks != [] {
      DeclinedStaysDeclined(ks[1..]);
    }
  }

  /** Appending one continuation to a chain binds the chain's result through it. */
  lemma {:induction false} RunChainSnoc(res: Option<Tuple>, ks: seq<PartialFun>, k: PartialFun)
    ensures RunChain(res, ks + [k]) == Bind(RunChain(res, ks), k)
    decreases |ks|
  {
    if ks == [] {
      assert RunChain(Bind(res, k), []) == Bind(res, k);
    } else {
      assert (ks + [k])[1..] == ks[1..] + [k];
      RunChainSnoc(Bind(res, ks[0]), ks[1..], k);
    }
  }

  /**
   * Reference semantics of `invoke`: apply the innermost partial function,
   * then every continuation from the innermost to the outermost.
   */
  lemma {:induction false} InvokeIsPipeline(b: BehaviorImpl, msg: Tuple)
    ensures b.Invoke(msg) == RunChain(b.Innermost().fun(msg), b.Continuations())
  {
    match b
    case Plain(_, _) =>
    case Decorated(k, inner, _) =>
      InvokeIsPipeline(inner, msg);
      RunChainSnoc(inner.Innermost().fun(msg), inner.Continuations(), k);
  }

  /** `defined_at` is the domain of the innermost partial function; continuations play no part. */
  lemma {:induction false} DefinedAtIsInnermostDomain(b: BehaviorImpl, msg: Tuple)
    ensures b.DefinedAt(msg) == b.Innermost().fun(msg).Some?
  {
    match b
    case Plain(_, _) =>
    case Decorated(_, inner, _) => DefinedAtIsInnermostDomain(inner, msg);
  }

  /** `handle_timeout` runs the innermost timeout handler; no continuation is on that path. */
  lemma {:induction false} HandleTimeoutIsInnermost(b: BehaviorImpl)
    ensures b.HandleTimeout() == b.Innermost().tdef.handler
  {
    match b
    case Plain(_, _) =>
    case Decorated(_, inner, _) => HandleTimeoutIsInnermost(inner);
  }

  /** In a valid chain every decorator reports the innermost timeout. */
  lemma {:induction false} TimeoutIsInnermost(b: BehaviorImpl)
    requires b.Valid()
    ensures b.Timeout() == b.Innermost().tdef.timeout
  {
    match b
    case Plain(_, _) =>
    case Decorated(_, inner, _) => TimeoutIsInnermost(inner);
  }

  /**
   * If the decorated behavior declines, the decorator declines; if it
   * answers `r`, the decorator answers exactly `k(r)`, so a declining
   * continuation makes the whole decorator decline.
   */
  lemma DecoratorInvoke(k: PartialFun, inner: BehaviorImpl, msg: Tuple)
    ensures inner.Invoke(msg).None? ==> Decorate(k, inner).Invoke(msg).None?
    ensures inner.Invoke(msg).Some? ==> Decorate(k, inner).Invoke(msg) == k(inner.Invoke(msg).value)
    ensures Decorate(k, inner).Invoke(msg).Some? <==>
              inner.Invoke(msg).Some? && k(inner.Invoke(msg).value).Some?
  {
  }

  /**
   * `defined_at` can hold while `invoke` yields nothing: when the decorated
   * behavior answers and the continuation declines that answer.
   */
  lemma DefinedButDeclined(k: PartialFun, inner: BehaviorImpl, msg: Tuple)
    requires inner.Invoke(msg).Some? && k(inner.Invoke(msg).value).None?
    ensures Decorate(k, inner).DefinedAt(msg)
    ensures Decorate(k, inner).Invoke(msg).None?
  {
  }

  /** The timeout path ignores the continuation: any two continuations give the same handler. */
  lemma HandleTimeoutBypassesContinuation(k1: PartialFun, k2: PartialFun, inner: BehaviorImpl)
    ensures Decorate(k1, inner).HandleTimeout() == inner.HandleTimeout()
    ensures Decorate(k1, inner).HandleTimeout() == Decorate(k2, inner).HandleTimeout()
  {
  }

  /**
   * `copy` of a decorator is the same continuation around the copy of the
   * decorated implementation, and matches exactly as the original does.
   */
  lemma CopyOfDecorator(k: PartialFun, inner: BehaviorImpl, tdef: TimeoutDefinition, msg: Tuple)
    ensures Decorate(k, inner).Copy(tdef) == Decorate(k, inner.Copy(tdef))
    ensures Decorate(k, inner).Copy(tdef).Invoke(msg) == Decorate(k, inner).Invoke(msg)
    ensures Decorate(k, inner).Copy(tdef).DefinedAt(msg) == Decorate(k, inner).DefinedAt(msg)
  {
  }

  /**
   * Chaining two continuations onto `b` invokes `b`, then `f`, then `g`,
   * and answers only when all three stages answer.
   */
  lemma ChainedContinuations(b: Behavior, f: PartialFunction, g: PartialFunction, msg: Tuple)
    requires b.impl.Some?
    ensures AddContinuation(AddContinuation(b, f), g).impl.value.Invoke(msg)
              == Bind(Bind(b.impl.value.Invoke(msg), f.fun), g.fun)
    ensures AddContinuation(AddContinuation(b, f), g).impl.value.Invoke(msg).Some? <==>
              (b.impl.value.Invoke(msg).Some?
               && f.fun(b.impl.value.Invoke(msg).value).Some?
               && g.fun(f.fun(b.impl.value.Invoke(msg).value).value).Some?)
    ensures AddContinuation(AddContinuation(b, f), g).impl.value.Continuations()
              == b.impl.value.Continuations() + [f.fun, g.fun]
  {
    var inner := b.impl.value;
    assert inner.Continuations() + [f.fun] + [g.fun] == inner.Continuations() + [f.fun, g.fun];
  }
}
