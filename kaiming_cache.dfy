/**
 * The @KaimingCache directive: the key template, the expiry, and the jittered
 * TTL that the aspect writes with.
 */
module Directive {
  import opened Wrappers
  import opened JavaObjects

  /** The annotation's elements; `key` is the only one without a default. */
  datatype KaimingCache = KaimingCache(
    key: string,
    timeout: int,
    timeoutString: string,
    timeUnit: TimeUnit,
    random: bool)

  const DefaultTimeout: int := 60
  const DefaultTimeoutString: string := ""
  const DefaultTimeUnit: TimeUnit := SECONDS
  const DefaultRandom: bool := true

  /** `@KaimingCache(key = k)`: the key supplied, every other element at its default. */
  function WithKey(key: string): KaimingCache {
    KaimingCache(key, DefaultTimeout, DefaultTimeoutString, DefaultTimeUnit, DefaultRandom)
  }

  /** Character.isWhitespace */
  predicate IsJavaWhitespace(c: char) {
    c == ' ' || '\t' <= c <= '\r' || '\U{1C}' <= c <= '\U{1F}' || c == '\U{1680}'
    || '\U{2000}' <= c <= '\U{2006}' || '\U{2008}' <= c <= '\U{200A}'
    || c == '\U{2028}' || c == '\U{2029}' || c == '\U{205F}' || c == '\U{3000}'
  }

  /** StringUtils.hasText: some character is not whitespace. */
  predicate HasText(s: string) {
    exists i :: 0 <= i < |s| && !IsJavaWhitespace(s[i])
  }

  /** `ttl / 5` on a Java long: division truncates toward zero. */
  function JitterBound(timeout: int): (b: int)
    ensures b > 0 <==> timeout >= 5
    ensures timeout >= 0 ==> b == timeout / 5
  {
    if timeout >= 0 then timeout / 5 else -((-timeout) / 5)
  }

  /** A value ThreadLocalRandom.nextLong(bound) can return: 0 <= j < bound. */
  predicate ValidJitter(d: KaimingCache, jitter: int) {
    0 <= jitter && (d.random && JitterBound(d.timeout) > 0 ==> jitter < JitterBound(d.timeout))
  }

  /**
   * The amount, in d.timeUnit, that a non-null result is written with.
   * With `random`, nextLong(timeout / 5) throws IllegalArgumentException when
   * the bound is not positive, that is when timeout < 5.
   */
  function WriteTtl(d: KaimingCache, jitter: int): (r: Result<int, Exc>)
    requires ValidJitter(d, jitter)
    ensures !d.random ==> r == Ok(d.timeout)
    ensures d.random ==> (r.Ok? <==> d.timeout >= 5)
    ensures d.random && r.Ok? ==> d.timeout <= r.value < d.timeout + d.timeout / 5
  {
    var ttl := d.timeout;
    if !d.random then Ok(ttl)
    else if JitterBound(ttl) <= 0 then Err(IllegalArgument("bound must be positive"))
    else Ok(ttl + jitter)
  }

  /** Every amount in [timeout, timeout + timeout / 5) is written for some jitter the random source can draw. */
  lemma JitterCoversRange(d: KaimingCache, t: int)
    requires d.random && d.timeout <= t < d.timeout + d.timeout / 5
    ensures exists j :: ValidJitter(d, j) && WriteTtl(d, j) == Ok(t)
  {
    var j := t - d.timeout;
    assert ValidJitter(d, j) && WriteTtl(d, j) == Ok(t);
  }

  /**
   * The documented override does not happen: the written TTL is the same
   * whatever timeoutString holds.
   */
  lemma WriteTtlIgnoresTimeoutString(d: KaimingCache, s: string, jitter: int)
    requires ValidJitter(d, jitter)
    ensures ValidJitter(d.(timeoutString := s), jitter)
    ensures WriteTtl(d.(timeoutString := s), jitter) == WriteTtl(d, jitter)
  {
  }

  /**
   * A directive with only its key set writes for 60 to 71 seconds: the default
   * timeout, unit and jitter, with no override consulted.
   */
  lemma DefaultsWriteTtl(key: string, jitter: int)
    requires ValidJitter(WithKey(key), jitter)
    ensures !HasText(WithKey(key).timeoutString)
    ensures WriteTtl(WithKey(key), jitter).Ok?
    ensures var n := DurationOf(WriteTtl(WithKey(key), jitter).value, WithKey(key).timeUnit);
      DurationOf(60, SECONDS) <= n < DurationOf(72, SECONDS)
  {
    var t := WriteTtl(WithKey(key), jitter).value;
    DurationOrder(60, t, SECONDS);
    DurationOrder(t, 72, SECONDS);
  }
}
