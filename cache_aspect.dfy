/**
 * CacheAspect.around: the cache-aside decision engine wrapped around every
 * method annotated with @KaimingCache.
 *
 * `AroundSpec` states, as a function of the inputs, what one interception
 * returns, what the store holds afterwards and how often the wrapped method
 * ran; `CacheAspect.Around` is the step-by-step method, proved to agree with it.
 */
module Aspect {
  import opened Wrappers
  import opened JavaObjects
  import Decimal
  import opened Directive
  import opened Keys
  import opened Store
  import opened Context

  /** ProceedingJoinPoint: the intercepted call and the wrapped method behind it. */
  class JoinPoint {
    /** what DefaultParameterNameDiscoverer finds; None when names are not available */
    const paramNames: Option<seq<string>>
    const args: seq<Obj>
    /** what the wrapped method returns or throws when it runs */
    const behaviour: Outcome
    /** how many times the wrapped method has run */
    ghost var proceeds: nat

    predicate Valid() {
      paramNames.Some? ==> |paramNames.value| == |args|
    }

    constructor (paramNames: Option<seq<string>>, args: seq<Obj>, behaviour: Outcome)
      requires paramNames.Some? ==> |paramNames.value| == |args|
      ensures Valid() && proceeds == 0
      ensures this.paramNames == paramNames && this.args == args && this.behaviour == behaviour
    {
      this.paramNames := paramNames;
      this.args := args;
      this.behaviour := behaviour;
      proceeds := 0;
    }

    /** joinPoint.proceed(): runs the wrapped method once. */
    method Proceed() returns (r: Outcome)
      modifies this
      ensures r == behaviour && proceeds == old(proceeds) + 1
    {
      r := behaviour;
      proceeds := proceeds + 1;
    }
  }

  /** Some argument is a CacheRefreshable whose isSkipCache() is true. */
  predicate ForceRefresh(args: seq<Obj>) {
    exists i :: 0 <= i < |args| && RequestsRefresh(args[i])
  }

  /** The loop over the arguments, which stops at the first that asks for a refresh. */
  method ScanForceRefresh(args: seq<Obj>) returns (forceRefresh: bool)
    ensures forceRefresh <==> ForceRefresh(args)
  {
    forceRefresh := false;
    var i := 0;
    while i < |args|
      invariant 0 <= i <= |args|
      invariant !forceRefresh
      invariant forall k :: 0 <= k < i ==> !RequestsRefresh(args[k])
    {
      if IsCacheRefreshable(args[i]) && IsSkipCache(args[i]) {
        forceRefresh := true;
        break;
      }
      i := i + 1;
    }
  }

  /** Looked up on every enabled call and only logged; an unresolvable placeholder throws. */
  const AppNamePlaceholder: string := "${spring.application.name}"

  predicate AppNameResolves(env: Env) {
    !ResolveValue(env, AppNamePlaceholder).Unresolvable?
  }

  /**
   * ttl2: timeout(), overridden by a parseable timeoutString. Its value is
   * never used; only a placeholder that cannot be resolved is observable.
   */
  function Ttl2(env: Env, d: KaimingCache): Result<int, Exc> {
    if !HasText(d.timeoutString) then Ok(d.timeout)
    else match ResolveValue(env, d.timeoutString)
      case Unresolvable(p) => Err(PlaceholderError(p))
      case NoValue => Ok(d.timeout)
      case Resolved(text) =>
        match Decimal.ParseLong(text)
        case Some(n) => Ok(n)
        case None => Ok(d.timeout)
  }

  /** The first key, computed on every enabled call: the resolved template through generateKey. */
  function RefreshKey(env: Env, d: KaimingCache, b: seq<Binding>): Result<string, Exc> {
    match ResolveValue(env, d.key)
    case Resolved(pattern) => GenerateKey(env, pattern, b)
    case NoValue => Err(IllegalArgument("expressionString must not be null"))
    case Unresolvable(p) => Err(PlaceholderError(p))
  }

  /** The key read and written when no refresh is forced: the raw template through generateKeyBySpEL. */
  function NormalKey(env: Env, d: KaimingCache, b: seq<Binding>): Result<string, Exc> {
    GenerateKeyBySpel(env, d.key, b)
  }

  /** Duration.ofMinutes(1): the lifetime of the marker written for a null result. */
  const NullMarkerTtl: int := DurationOf(1, MINUTES)

  /** One interception: what it ends with, the store after it, and how often the wrapped method ran. */
  datatype Run = Run(outcome: Outcome, data: Data, proceeds: nat)

  /** Run the wrapped method, then write back under `key`. */
  function Execute(d: KaimingCache, key: string, behaviour: Outcome, data: Data, down: bool, jitter: int): (run: Run)
    requires ValidJitter(d, jitter)
    ensures run.proceeds == 1
  {
    match behaviour
    case Threw(e) => Run(Threw(e), data, 1)
    case Returned(v) =>
      if v != NullRef then
        match WriteTtl(d, jitter)
        case Err(e) => Run(Threw(e), data, 1)
        case Ok(ttl) => Run(Returned(v), Write(data, down, key, v, DurationOf(ttl, d.timeUnit)), 1)
      else Run(Returned(NullRef), Write(data, down, key, BlankObject, NullMarkerTtl), 1)
  }

  /** What `around` does, given whether CacheContext reports caching enabled. */
  function AroundSpec(env: Env, enabled: bool, d: KaimingCache, paramNames: Option<seq<string>>, args: seq<Obj>,
                      behaviour: Outcome, data: Data, down: bool, jitter: int): Run
    requires paramNames.Some? ==> |paramNames.value| == |args|
    requires ValidJitter(d, jitter)
  {
    if !enabled then Run(behaviour, data, 1)
    else if ResolveValue(env, AppNamePlaceholder).Unresolvable? then
      Run(Threw(PlaceholderError(ResolveValue(env, AppNamePlaceholder).placeholder)), data, 0)
    else match Ttl2(env, d)
      case Err(e) => Run(Threw(e), data, 0)
      case Ok(_) =>
        var b := Bindings(paramNames, args);
        match RefreshKey(env, d, b)
        case Err(e) => Run(Threw(e), data, 0)
        case Ok(refreshKey) =>
          if ForceRefresh(args) then Execute(d, refreshKey, behaviour, data, down, jitter)
          else match NormalKey(env, d, b)
            case Err(e) => Run(Threw(e), data, 0)
            case Ok(key) =>
              match Read(data, down, key)
              case Some(v) => Run(Returned(v), data, 0)
              case None => Execute(d, key, behaviour, data, down, jitter)
  }

  /** The aspect bean with its collaborators. */
  class CacheAspect {
    const redis: RedisService
    const env: Env

    constructor (redis: RedisService, env: Env)
      ensures this.redis == redis && this.env == env
    {
      this.redis := redis;
      this.env := env;
    }

    /** @Around("@annotation(kaimingCache)"); `jitter` is what ThreadLocalRandom would draw. */
    method Around(ctx: CacheContext, jp: JoinPoint, d: KaimingCache, jitter: int) returns (outcome: Outcome)
      requires jp.Valid() && ValidJitter(d, jitter)
      modifies ctx, jp, redis
      ensures var run := AroundSpec(env, old(ctx.Enabled()), d, jp.paramNames, jp.args, jp.behaviour,
                                    old(redis.data), redis.down, jitter);
        outcome == run.outcome && redis.data == run.data && jp.proceeds == old(jp.proceeds) + run.proceeds
      ensures ctx.slot == Step(old(ctx.slot), Get)
    {
      var enabled := ctx.IsEnabled();
      if !enabled {
        outcome := jp.Proceed();
        return;
      }

      var appName := ResolveValue(env, AppNamePlaceholder);
      if appName.Unresolvable? {
        return Threw(PlaceholderError(appName.placeholder));
      }

      var ttl2 := d.timeout;
      if HasText(d.timeoutString) {
        var resolvedString := ResolveValue(env, d.timeoutString);
        match resolvedString
        case Unresolvable(p) => return Threw(PlaceholderError(p));
        case NoValue =>
        case Resolved(text) =>
          var parsed := Decimal.ParseLong(text);
          if parsed.Some? {
            ttl2 := parsed.value;
          }
      }
      assert Ttl2(env, d) == Ok(ttl2);

      var bindings := Bindings(jp.paramNames, jp.args);
      var rawKeyPattern := ResolveValue(env, d.key);
      var redisKey: string;
      match rawKeyPattern
      case NoValue => return Threw(IllegalArgument("expressionString must not be null"));
      case Unresolvable(p) => return Threw(PlaceholderError(p));
      case Resolved(pattern) =>
        var generated := GenerateKey(env, pattern, bindings);
        if generated.Err? {
          return Threw(generated.error);
        }
        redisKey := generated.value;
      assert RefreshKey(env, d, bindings) == Ok(redisKey);

      var forceRefresh := ScanForceRefresh(jp.args);

      if !forceRefresh {
        var spelKey := GenerateKeyBySpel(env, d.key, bindings);
        if spelKey.Err? {
          return Threw(spelKey.error);
        }
        redisKey := spelKey.value;
        var cachedValue := redis.Get(redisKey);
        if cachedValue.Some? {
          return Returned(cachedValue.value);
        }
      }

      outcome := ProceedAndWriteBack(jp, d, redisKey, jitter);
    }

    /** The miss path: run the wrapped method, then write its result, or the null marker, back under `redisKey`. */
    method ProceedAndWriteBack(jp: JoinPoint, d: KaimingCache, redisKey: string, jitter: int) returns (outcome: Outcome)
      requires ValidJitter(d, jitter)
      modifies jp, redis
      ensures var run := Execute(d, redisKey, jp.behaviour, old(redis.data), redis.down, jitter);
        outcome == run.outcome && redis.data == run.data && jp.proceeds == old(jp.proceeds) + run.proceeds
    {
      var result := jp.Proceed();
      if result.Threw? {
        return result;
      }

      if result.value != NullRef {
        var ttl := d.timeout;
        if d.random {
          if JitterBound(ttl) <= 0 {
            return Threw(IllegalArgument("bound must be positive"));
          }
          ttl := ttl + jitter;
        }
        redis.Set(redisKey, result.value, DurationOf(ttl, d.timeUnit));
      } else {
        redis.Set(redisKey, BlankObject, NullMarkerTtl);
      }
      return result;
    }
  }
}
