/**
 * The Java values that flow through the cache layer: call arguments, results of
 * the wrapped methods, exceptions, time units and durations.
 */
module JavaObjects {

  /** UserDTO: the record the demo services return. */
  datatype UserDto = UserDto(id: int, name: string)

  /** A Java object reference, as far as the cache layer distinguishes objects. */
  datatype Obj =
    | NullRef
    | Str(text: string)
      /** an integral java.lang.Number (Long, Integer, ...) */
    | Num(n: int)
      /** a non-integral java.lang.Number (Double, Float, BigDecimal, ...) with its toString() text */
    | Fractional(text: string)
    | Bool(b: bool)
    | User(dto: UserDto)
      /** UserSearchRequest, the one argument type that implements CacheRefreshable */
    | SearchRequest(username: string, city: string, forceRefresh: bool)
      /** `new Object()`, the marker written for a null result */
    | BlankObject
      /** any other object; `tag` tells instances apart */
    | Other(tag: int)

  /** A UserSearchRequest as its field initialisers leave it: forceRefresh starts false. */
  function NewSearchRequest(username: string, city: string): (r: Obj)
    ensures IsCacheRefreshable(r) && !IsSkipCache(r)
  {
    SearchRequest(username, city, false)
  }

  /** `arg instanceof CacheRefreshable` */
  predicate IsCacheRefreshable(o: Obj) {
    o.SearchRequest?
  }

  /** CacheRefreshable.isSkipCache(); UserSearchRequest returns its forceRefresh field. */
  function IsSkipCache(o: Obj): bool
    requires IsCacheRefreshable(o)
  {
    o.forceRefresh
  }

  /** The test of the force-refresh scan: a CacheRefreshable that asks to skip the cache. */
  predicate RequestsRefresh(o: Obj) {
    IsCacheRefreshable(o) && IsSkipCache(o)
  }

  /** What a call can throw. */
  datatype Exc =
      /** a SpEL parse or evaluation failure */
    | ExpressionError(detail: string)
      /** a `${...}` placeholder with no value and no default */
    | PlaceholderError(placeholder: string)
    | IllegalArgument(detail: string)
      /** whatever the wrapped method itself throws */
    | MethodFailure(code: int)

  /** How a call ends: a returned reference (possibly null) or a thrown exception. */
  datatype Outcome = Returned(value: Obj) | Threw(exc: Exc)

  /** java.util.concurrent.TimeUnit */
  datatype TimeUnit = NANOSECONDS | MICROSECONDS | MILLISECONDS | SECONDS | MINUTES | HOURS | DAYS

  function NanosPer(u: TimeUnit): (n: nat)
    ensures n > 0
  {
    match u
    case NANOSECONDS => 1
    case MICROSECONDS => 1000
    case MILLISECONDS => 1000_000
    case SECONDS => 1000_000_000
    case MINUTES => 60 * 1000_000_000
    case HOURS => 3600 * 1000_000_000
    case DAYS => 86400 * 1000_000_000
  }

  /**
   * Duration.of(amount, unit.toChronoUnit()), as a count of nanoseconds: two
   * Durations are equal when they span the same time, whatever unit built them.
   */
  function DurationOf(amount: int, u: TimeUnit): int {
    amount * NanosPer(u)
  }

  /** Durations of one unit compare as their amounts do, in both directions. */
  lemma DurationOrder(a: int, b: int, u: TimeUnit)
    ensures a <= b <==> DurationOf(a, u) <= DurationOf(b, u)
    ensures a < b <==> DurationOf(a, u) < DurationOf(b, u)
  {
    match u
    case NANOSECONDS =>
    case MICROSECONDS =>
    case MILLISECONDS =>
    case SECONDS =>
    case MINUTES =>
    case HOURS =>
    case DAYS =>
  }
}
