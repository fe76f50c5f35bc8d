/**
 * CacheControlInterceptor: before a controller method runs it copies the
 * @CacheControl setting into CacheContext; after the request it clears it.
 */
module Interceptor {
  import opened Wrappers
  import opened JavaObjects
  import opened Context

  /** The @CacheControl annotation; an element left out takes its default. */
  datatype CacheControl = CacheControl(enabled: bool, readOnly: bool)

  /** `@CacheControl` with no elements. */
  const DefaultCacheControl: CacheControl := CacheControl(true, false)

  /** What the dispatcher hands to the interceptor. */
  datatype Handler =
      /** anything that is not a HandlerMethod, a static resource for instance */
    | OtherHandler
      /** a controller method, with the annotation on the method and the one on its class */
    | HandlerMethod(methodAnnotation: Option<CacheControl>, classAnnotation: Option<CacheControl>)

  /** The setting preHandle writes, if it writes one: the method's annotation first, then the class's. */
  function Chosen(h: Handler): Option<bool> {
    match h
    case OtherHandler => None
    case HandlerMethod(m, c) =>
      if m.Some? then Some(m.value.enabled)
      else if c.Some? then Some(c.value.enabled)
      else None
  }

  /** The CacheContext calls preHandle makes. */
  function PreHandleOps(h: Handler): (ops: seq<SlotOp>)
    ensures |ops| <= 1
  {
    match Chosen(h)
    case Some(b) => [Set(b)]
    case None => []
  }

  method PreHandle(ctx: CacheContext, handler: Handler) returns (proceed: bool)
    modifies ctx
    ensures proceed
    ensures ctx.slot == Replay(old(ctx.slot), PreHandleOps(handler))
  {
    if !handler.HandlerMethod? {
      return true;
    }
    var methodAnnotation := handler.methodAnnotation;
    if methodAnnotation.Some? {
      ctx.SetEnabled(methodAnnotation.value.enabled);
      return true;
    }
    var classAnnotation := handler.classAnnotation;
    if classAnnotation.Some? {
      ctx.SetEnabled(classAnnotation.value.enabled);
      return true;
    }
    return true;
  }

  /** Runs after every request, whether or not it ended with an exception. */
  method AfterCompletion(ctx: CacheContext, handler: Handler, ex: Option<Exc>)
    modifies ctx
    ensures ctx.slot == Step(old(ctx.slot), Remove)
    ensures ctx.Enabled()
  {
    ctx.Clear();
  }

  /**
   * The precedence rule, as its effect on the thread's flag: a method-level
   * annotation decides whatever the class says and whatever the thread held;
   * without one, the class-level annotation decides; with neither, or for a
   * handler that is not a controller method, the flag is left as it was.
   */
  lemma PrecedenceRule(h: Handler, start: Option<bool>)
    ensures h.HandlerMethod? && h.methodAnnotation.Some? ==>
      forall c :: Observed(Replay(start, PreHandleOps(HandlerMethod(h.methodAnnotation, c)))) == h.methodAnnotation.value.enabled
    ensures h.HandlerMethod? && h.methodAnnotation.None? && h.classAnnotation.Some? ==>
      Observed(Replay(start, PreHandleOps(h))) == h.classAnnotation.value.enabled
    ensures h.OtherHandler? || (h.methodAnnotation.None? && h.classAnnotation.None?) ==>
      Replay(start, PreHandleOps(h)) == start
  {
    forall c | h.HandlerMethod? && h.methodAnnotation.Some?
      ensures Observed(Replay(start, PreHandleOps(HandlerMethod(h.methodAnnotation, c)))) == h.methodAnnotation.value.enabled
    {
      ReplayAppend(start, [], Set(h.methodAnnotation.value.enabled));
      assert [] + [Set(h.methodAnnotation.value.enabled)] == PreHandleOps(HandlerMethod(h.methodAnnotation, c));
    }
    if h.HandlerMethod? && h.methodAnnotation.None? && h.classAnnotation.Some? {
      ReplayAppend(start, [], Set(h.classAnnotation.value.enabled));
      assert [] + [Set(h.classAnnotation.value.enabled)] == PreHandleOps(h);
    }
  }

  /** Only `enabled` is read: changing `readOnly` on either annotation changes nothing. */
  lemma ReadOnlyNeverConsulted(m: Option<CacheControl>, c: Option<CacheControl>, r1: bool, r2: bool)
    ensures Chosen(HandlerMethod(WithReadOnly(m, r1), WithReadOnly(c, r2))) == Chosen(HandlerMethod(m, c))
  {
  }

  function WithReadOnly(a: Option<CacheControl>, r: bool): Option<CacheControl> {
    match a
    case Some(cc) => Some(cc.(readOnly := r))
    case None => None
  }

  /**
   * During a request on a fresh thread, isEnabled() answers what preHandle chose,
   * or the default true, however often the aspect reads it.
   */
  lemma {:induction false} EnabledDuringRequest(h: Handler, lookups: seq<SlotOp>)
    requires forall i :: 0 <= i < |lookups| ==> lookups[i].Get?
    ensures Observed(Replay(None, PreHandleOps(h) + lookups)) == Chosen(h).GetOr(true)
  {
    ReplayFromFresh(PreHandleOps(h) + lookups);
    ReadsKeepSetting(PreHandleOps(h), lookups);
    var pre := PreHandleOps(h);
    if pre != [] {
      assert pre[..|pre| - 1] == [];
    }
  }

  /**
   * Whatever the thread held before and whatever ran in between, a request that
   * goes through preHandle and afterCompletion leaves the ThreadLocal unset, so
   * the next request on a pooled thread starts from the default.
   */
  lemma RequestLeavesNoResidue(start: Option<bool>, h: Handler, body: seq<SlotOp>)
    ensures Replay(start, PreHandleOps(h) + body + [Remove]) == None
  {
    ReplayAppend(start, PreHandleOps(h) + body, Remove);
  }
}
