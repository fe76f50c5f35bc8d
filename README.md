# obee-redis-demo: the @KaimingCache aspect, modelled in Dafny

This project models the annotation-driven cache of obee-redis-demo, a Spring Boot demo. It proves properties of that model.

- **The aspect.** A method annotated with `@KaimingCache` is intercepted by `CacheAspect.around`.
  - The aspect derives a Redis key from the annotation's SpEL template.
  - It returns a cached value when one is present.
  - Otherwise it runs the method and writes the result back with a jittered TTL. A null result is written as a one-minute marker object.
- **Forced refresh.** An argument implementing `CacheRefreshable` can skip the read.
- **Per-request switch.** A thread-local `CacheContext` flag can switch caching off for a whole request. `CacheControlInterceptor` sets that flag from `@CacheControl` and clears it after the request.
- **Manual cache-aside.** `UserService.getUser` does cache-aside by hand and counts views.
- **Worked examples.** The two `DemoService` methods serve as worked examples.
- **The store.** `RedisService` is reduced to its fail-soft contract: every failed command is caught, a read comes back empty, and a write does nothing.

## How the model is organised

| file | module | models |
|---|---|---|
| `wrappers.dfy` | `Wrappers` | `Option` and `Result` |
| `java_objects.dfy` | `JavaObjects` | the values that flow through the aspect: arguments, results, exceptions, `TimeUnit` and durations |
| `decimal.dfy` | `Decimal` | `Long.toString` and `Long.parseLong` |
| `kaiming_cache.dfy` | `Directive` | the `@KaimingCache` record, its defaults, and the TTL computation |
| `key_expr.dfy` | `Keys` | placeholder resolution, `generateKeyBySpEL`, `generateKey` and `calculateHash` |
| `redis_store.dfy` | `Store` | `RedisService` get/set/increment over a map, with a "store down" flag |
| `cache_context.dfy` | `Context` | the `CacheContext` thread-local slot, as a class plus a replay model of its operations |
| `interceptor.dfy` | `Interceptor` | `preHandle` and `afterCompletion` |
| `cache_aspect.dfy` | `Aspect` | `around`, as a specification function `AroundSpec` and the method `CacheAspect.Around` proved to follow it |
| `aspect_properties.dfy` | `AroundProperties` | what one interception guarantees |
| `user_service.dfy` | `UserSvc` | `UserService.getUser` |
| `demo_service.dfy` | `Demo` | the two annotated `DemoService` methods, worked through |

### Parameters that stand in for collaborators

Spring's resolver and expression engine are the function fields of `Keys.Env`. The model pins down only the parts the code relies on:

- Text without `${` or `#{` resolves to itself.
- A key template made of a string literal followed by ` + `-joined literals, `#var` and `#hash(#var)` is parsed and evaluated concretely. `ParseRender` proves the parser inverts the printer.
- `#hash` is defined only where `generateKey` registers it. Variables named `hash`, `this`, `root` or like a textual operator are left to the expression engine.

Other collaborators also become parameters:

- The wrapped method is a fixed `Outcome`, and a ghost counter records how often it ran.
- `ThreadLocalRandom.nextLong` is the `jitter` argument, constrained to `[0, bound)`.
- The mapper lookup that `UserService.getUser` stubs out is the `lookup` argument.
- A `Duration` is its length in nanoseconds.

### Where the model follows the code rather than its comments

- **A disabled context only runs the method.** `around` then returns straight after `proceed()` and never writes back. `@CacheControl`'s comment says writing is still allowed.
- **`timeoutString` is parsed into `ttl2` and never used.** The written TTL always comes from `timeout()`. `TimeoutStringIgnored` and `GetUserMiss` prove it: `getUser` keeps entries for 60 to 71 seconds, not the 600 its comment expects.
- **The key built from the resolved template is used only on the forced-refresh path.** Every enabled call resolves the template's placeholders and runs `generateKey` on the result, and either step can throw (`KeyFailurePropagates`). The key that is read and written on the normal path, though, is the raw template evaluated, so `getUser`'s key is the literal `${app.cache.prefix}user:<id>` (`ProdKeysDiverge`).
- **`#hash` fails on the normal path.** The `#hash` function is registered only in `generateKey`, so a template calling it fails in `generateKeyBySpEL` (`HashTemplateOnlyEvaluatesWithRegistration`).
- **An unknown application name fails every call.** `around` looks up `${spring.application.name}` only to log it. When that placeholder cannot be resolved, every enabled call throws (`KeyFailurePropagates`).
- **A zero timeout caches nothing.** Redis refuses an expiry under a millisecond, and `RedisService.set` swallows the error (`WrittenTtl`, `ShortExpiryRefused`).
- **`random` with a timeout under 5 throws.** `nextLong(timeout / 5)` is then called with a bound that is not positive. The exception comes after the method has run, and nothing is written (`WrittenTtl`).

## Model

| member | source | states |
|---|---|---|
| Aspect.CacheAspect.Around | src/main/java/com/obee/redis/demo/service/CacheAspect.java:72-167 | one interception reads the context once, then returns, stores and runs the wrapped method exactly as `AroundSpec` prescribes for the context's value before the call |
| Aspect.CacheAspect.ProceedAndWriteBack | src/main/java/com/obee/redis/demo/service/CacheAspect.java:144-166 | run the method once, then write the result (or the null marker) under the key with the computed TTL, as `Execute` prescribes |
| Aspect.ScanForceRefresh | src/main/java/com/obee/redis/demo/service/CacheAspect.java:107-117 | the scan answers true exactly when some argument is a CacheRefreshable whose isSkipCache() is true |
| Aspect.JoinPoint.Proceed | src/main/java/com/obee/redis/demo/service/CacheAspect.java:144 | proceed() yields the wrapped method's outcome and counts one more run |
| AroundProperties.DisabledContextBypasses | src/main/java/com/obee/redis/demo/service/CacheAspect.java:78-82 | with caching disabled the method runs once, its outcome is passed through, and the store is untouched |
| AroundProperties.KeyFailurePropagates | src/main/java/com/obee/redis/demo/service/CacheAspect.java:84-123 | an unresolvable application name, an unresolvable ttl2 placeholder or a failing key expression throws before any read and before the method runs, leaving the store as it was |
| AroundProperties.ForceRefreshSkipsRead | src/main/java/com/obee/redis/demo/service/CacheAspect.java:106-164 | under a forced refresh the outcome does not depend on the store, the method runs once, and the write-back uses the generateKey key |
| AroundProperties.CacheHit | src/main/java/com/obee/redis/demo/service/CacheAspect.java:120-139 | a non-null value found at the key is returned, the method does not run, and nothing is written; a stored null reads as a miss (RedisService.java:118-119) |
| AroundProperties.CacheMiss | src/main/java/com/obee/redis/demo/service/CacheAspect.java:134-159 | on a miss the method runs once; an exception propagates without a write; a non-null result is returned and the new store is exactly the old one plus that result under the key that was read, with the computed TTL; the result is then readable there unless the store refused the expiry |
| AroundProperties.WritesOnlyAfterSuccessfulRun | src/main/java/com/obee/redis/demo/service/CacheAspect.java:73-167 | the method runs at most once, and the store changes only after it ran and returned normally |
| AroundProperties.NullResultWritesMarker | src/main/java/com/obee/redis/demo/service/CacheAspect.java:161-164 | a null result is returned and a marker object is written for exactly one minute, whatever timeUnit and random say |
| AroundProperties.WrittenTtl | src/main/java/com/obee/redis/demo/service/CacheAspect.java:147-159 | the written TTL is timeout in timeUnit without random, in [timeout, timeout + timeout/5) with it; with random and timeout < 5 nextLong throws after the run and nothing is written; a duration under a millisecond is refused and nothing is written |
| AroundProperties.TimeoutStringIgnored | src/main/java/com/obee/redis/demo/service/CacheAspect.java:87-99 | two directives that differ only in timeoutString behave identically whenever its placeholder resolves |
| AroundProperties.StoreFailureIsInvisible | src/main/java/com/obee/redis/demo/service/CacheAspect.java:134-164 | with every store command failing, the caller gets the method's own outcome from a single run and nothing is stored |
| AroundProperties.MarkerAbsorbsRepeatedMiss | src/main/java/com/obee/redis/demo/service/CacheAspect.java:161-164 | after a null result, the same call finds the marker and does not run the method again |
| Keys.HashOfPrimitives | src/main/java/com/obee/redis/demo/service/CacheAspect.java:233-238 | calculateHash gives "null" for null, the text for a String, the decimal text (parsing back to the number) for an integral Number, the toString() text for any other Number, "true"/"false" for a Boolean, independent of the digest; other objects are digested |
| Keys.NumberHashInjective | src/main/java/com/obee/redis/demo/service/CacheAspect.java:236-237 | two integral numbers have the same hash only if they are equal |
| Keys.VariableYieldsArgument | src/main/java/com/obee/redis/demo/service/CacheAspect.java:187-195 | in the context built from a call, #p yields the argument of the (last) parameter named p |
| Keys.LookupFindsLast | src/main/java/com/obee/redis/demo/service/CacheAspect.java:191-195 | a variable set several times yields the value set last |
| Keys.ParseRender | src/main/java/com/obee/redis/demo/service/CacheAspect.java:198 | parsing a printed key template gives back the terms it was printed from |
| Keys.RegistrationIrrelevant | src/main/java/com/obee/redis/demo/service/CacheAspect.java:219-226 | a template that does not call #hash evaluates alike with or without the registration |
| Keys.UnregisteredHashFails | src/main/java/com/obee/redis/demo/service/CacheAspect.java:190-199 | a template that calls #hash fails when #hash is not registered |
| Keys.EvalAlwaysOkRegistered | src/main/java/com/obee/redis/demo/service/CacheAspect.java:205-226 | with #hash registered every term of a fragment template has a value, so its evaluation does not fail (SpEL's length limits aside, see "Left out") |
| Keys.StaticTextKeys | src/main/java/com/obee/redis/demo/service/CacheAspect.java:176-180 | a template without '#' and without placeholders resolves to itself and is its own key on the generateKeyBySpEL path; generateKey hands such text, unquoted, to the expression engine |
| Keys.KeysAgree | src/main/java/com/obee/redis/demo/service/CacheAspect.java:103-123 | a fragment template that starts with a literal, contains '#', has no placeholder and calls no #hash gives the same key on the forced-refresh and the normal path, and that key is computed without failure (SpEL's length limits aside) |
| Keys.HashTemplateOnlyEvaluatesWithRegistration | src/main/java/com/obee/redis/demo/service/CacheAspect.java:176-226 | a template calling #hash fails in generateKeyBySpEL and succeeds in generateKey |
| Keys.QuotedStaticKeyDiverges | src/main/java/com/obee/redis/demo/service/CacheAspect.java:176-180 | a quoted literal key is used without quotes by generateKey and verbatim, quotes included, by generateKeyBySpEL |
| Keys.BareHashIsLeftToSpel | src/main/java/com/obee/redis/demo/service/CacheAspect.java:219-226 | `#hash` is not a variable name of the fragment; a template that is `#hash`, or any chain of fragment terms followed by ` + #hash`, with nothing or a space-led rest after it, goes on both key paths to the expression engine, where #hash names the registered function when there is one |
| Directive.JitterBound | src/main/java/com/obee/redis/demo/service/CacheAspect.java:152 | Java's truncating ttl / 5 is positive exactly when ttl >= 5 |
| Directive.WriteTtl | src/main/java/com/obee/redis/demo/service/CacheAspect.java:148-154 | without random the amount is timeout; with it, it succeeds iff timeout >= 5 and lies in [timeout, timeout + timeout/5) |
| Directive.JitterCoversRange | src/main/java/com/obee/redis/demo/service/CacheAspect.java:150-153 | every amount in that range is reachable by some admissible jitter |
| Directive.WriteTtlIgnoresTimeoutString | src/main/java/com/obee/redis/demo/service/CacheAspect.java:148 | the written amount does not depend on timeoutString |
| Directive.DefaultsWriteTtl | src/main/java/com/obee/redis/demo/annotation/KaimingCache.java:28-46 | a directive with only its key set has no timeoutString and writes for 60 to 71 seconds |
| JavaObjects.DurationOrder | src/main/java/com/obee/redis/demo/service/CacheAspect.java:157 | converting to a Duration preserves and reflects the order of amounts in one unit |
| JavaObjects.NewSearchRequest | src/main/java/com/obee/redis/demo/model/UserSearchRequest.java:17-22 | a fresh UserSearchRequest is a CacheRefreshable that does not ask to skip the cache |
| Decimal.IntRoundTrip | src/main/java/com/obee/redis/demo/service/DemoService.java:31 | Long.toString parses back to the same number |
| Decimal.ParseLong | src/main/java/com/obee/redis/demo/service/CacheAspect.java:94 | Long.parseLong accepts decimal text exactly when its value lies within 64 bits, and then yields that value |
| Decimal.LongRoundTrip | src/main/java/com/obee/redis/demo/service/CacheAspect.java:94 | Long.parseLong reads back the decimal text of every 64-bit value |
| Context.Step | src/main/java/com/obee/redis/demo/service/CacheContext.java:18-39 | after set(b) the flag reads b; get() keeps the value and fixes it in the slot; remove() empties the slot, which then reads true |
| Context.ReplayFromFresh | src/main/java/com/obee/redis/demo/service/CacheContext.java:18-31 | on a fresh thread the flag reads the last value set, or true if none was set |
| Context.NoSetMeansEnabled | src/main/java/com/obee/redis/demo/service/CacheContext.java:17-18 | with no set() ever made, caching reads as enabled |
| Context.ReadsKeepSetting | src/main/java/com/obee/redis/demo/service/CacheContext.java:30-32 | reads do not change what the flag answers |
| Context.CacheContext.constructor | src/main/java/com/obee/redis/demo/service/CacheContext.java:18 | a new thread starts with an unset slot, reading as enabled |
| Context.CacheContext.SetEnabled | src/main/java/com/obee/redis/demo/service/CacheContext.java:23-25 | setEnabled(b) makes the flag read b |
| Context.CacheContext.IsEnabled | src/main/java/com/obee/redis/demo/service/CacheContext.java:30-32 | isEnabled() returns the current value and leaves it unchanged |
| Context.CacheContext.Clear | src/main/java/com/obee/redis/demo/service/CacheContext.java:37-39 | clear() empties the slot; the flag reads enabled again |
| Interceptor.PreHandle | src/main/java/com/obee/redis/demo/interceptor/CacheControlInterceptor.java:20-44 | preHandle always lets the request through and makes at most the one setEnabled call the precedence rule chooses |
| Interceptor.AfterCompletion | src/main/java/com/obee/redis/demo/interceptor/CacheControlInterceptor.java:47-50 | afterCompletion clears the context, exception or not |
| Interceptor.PrecedenceRule | src/main/java/com/obee/redis/demo/interceptor/CacheControlInterceptor.java:29-40 | after preHandle the flag reads the method annotation's value whatever the class annotation and the thread held, else the class annotation's value; with neither, or for a non-controller handler, the flag is untouched |
| Interceptor.ReadOnlyNeverConsulted | src/main/java/com/obee/redis/demo/interceptor/CacheControlInterceptor.java:29-40 | readOnly on either annotation has no effect |
| Interceptor.EnabledDuringRequest | src/main/java/com/obee/redis/demo/interceptor/CacheControlInterceptor.java:20-44 | during a request the aspect sees the chosen setting, or true without one, however often it reads |
| Interceptor.RequestLeavesNoResidue | src/main/java/com/obee/redis/demo/interceptor/CacheControlInterceptor.java:47-50 | whatever the thread held before and whatever ran in between, the request ends with the slot unset |
| Store.ReadAfterWrite | src/main/java/com/obee/redis/demo/service/RedisService.java:104-110 | a successful set with an expiry of at least a millisecond stores the value at its key with the TTL it was given; get reads it back unless it is null |
| Store.ShortExpiryRefused | src/main/java/com/obee/redis/demo/service/RedisService.java:104-110 | a set with an expiry under a millisecond stores nothing |
| Store.OtherKeysUntouched | src/main/java/com/obee/redis/demo/service/RedisService.java:104-151 | set and increment leave every other key's presence and entry, TTL included, as it was |
| Store.DownStoreIsInert | src/main/java/com/obee/redis/demo/service/RedisService.java:104-151 | with every command failing, reads are empty and writes and increments change nothing |
| Store.IncrAddsDelta | src/main/java/com/obee/redis/demo/service/RedisService.java:140-151 | an increment of a missing or integral counter adds exactly delta and returns the new count |
| Store.RedisService.Get | src/main/java/com/obee/redis/demo/service/RedisService.java:116-127 | get returns the stored value, and empty for an absent key, a stored null or a failed command |
| Store.RedisService.Set | src/main/java/com/obee/redis/demo/service/RedisService.java:104-110 | set follows Write: nothing changes when the command fails or the expiry is under a millisecond |
| Store.RedisService.Increment | src/main/java/com/obee/redis/demo/service/RedisService.java:140-151 | increment rejects a negative delta, reads 0 on failure, and otherwise follows Incr |
| UserSvc.ProfileKey | src/main/java/com/obee/redis/demo/service/UserService.java:27 | the profile key ends with the user id after a fixed prefix |
| UserSvc.ViewCountKey | src/main/java/com/obee/redis/demo/service/UserService.java:44 | the counter key ends with the user id after a fixed prefix |
| UserSvc.KeysDisjoint | src/main/java/com/obee/redis/demo/service/UserService.java:27-44 | profile and counter keys never collide, and each determines its user |
| UserSvc.HitTouchesNothing | src/main/java/com/obee/redis/demo/service/UserService.java:29-33 | a cached non-null profile is returned and nothing, the counter included, changes |
| UserSvc.MissCachesAndCounts | src/main/java/com/obee/redis/demo/service/UserService.java:35-46 | on a miss (no profile, or a stored null) the looked-up user is returned, cached for an hour only if not null, the counter rises by exactly one, and every other key keeps its entry |
| UserSvc.NullLookupAlwaysMisses | src/main/java/com/obee/redis/demo/service/UserService.java:36-44 | a null lookup is never cached, so n calls miss n times and raise the counter by n |
| UserSvc.UserService.GetUser | src/main/java/com/obee/redis/demo/service/UserService.java:26-47 | getUser returns and stores what GetUserSpec prescribes |
| Demo.LoadUser | src/main/java/com/obee/redis/demo/service/DemoService.java:26-33 | the built user carries the id, and its name parses back to the id |
| Demo.GetUserByIdKeys | src/main/java/com/obee/redis/demo/service/DemoService.java:25 | both keys of getUserById are "user:info:" followed by the id, under any resolver |
| Demo.GetUserByIdHit | src/main/java/com/obee/redis/demo/service/DemoService.java:25-33 | with the application name resolvable, a stored non-null value for the id is returned without running getUserById |
| Demo.GetUserByIdMiss | src/main/java/com/obee/redis/demo/service/DemoService.java:25-33 | with the application name resolvable, on a miss (nothing stored, or a stored null) getUserById runs once and its user is returned and kept for 30 to 35 minutes |
| Demo.GetUserNormalKey | src/main/java/com/obee/redis/demo/service/DemoService.java:45-51 | getUser reads and writes the key with the placeholder text left in |
| Demo.GetUserMiss | src/main/java/com/obee/redis/demo/service/DemoService.java:45-60 | on a miss getUser runs once, returns the built user and keeps it under the placeholder-text key for 60 to 71 seconds, not the configured 600 |
| Demo.ProdTtl2 | src/main/java/com/obee/redis/demo/service/DemoService.java:47-50 | with app.cache.search.ttl = 600, ttl2 becomes 600 |
| Demo.ProdKeysDiverge | src/main/java/com/obee/redis/demo/service/DemoService.java:45-51 | with app.cache.prefix = "prod:v1:", the resolved-template key is "prod:v1:user:<id>" and differs from the key actually used |

## Left out

- I/O is not modelled: logging and the Redis connection itself. A failing connection is the `down` flag, fixed per store. The `spring.application.name` lookup is kept only for its failure: its value is unused.
- Concurrency is not modelled. `CacheContext` is one thread's slot, and concurrent interceptions on one store are not considered.
- Expiry is not modelled: a TTL is recorded with the entry, but time does not pass.
- The digest branch of `calculateHash` (Jackson serialisation, then MD5, or `hashCode` when serialising fails) is an opaque function of `Env`, as is the `toString` of non-primitive objects.
- SpEL outside the literal-first `+` fragment is an opaque function of `Env`. A template that uses `#hash` as a plain variable, or as the argument of `#hash(...)`, is outside the fragment, and so is one whose variable is spelled like a textual operator (`div`, `eq`, `ge`, `gt`, `le`, `lt`, `mod`, `ne`, `not`, in any case).
- An expression whose value is null is not modelled: `getValue` would yield a null key.
- Serialisation is not modelled. Stored values come back exactly as written (a stored null, which the deserialiser also yields for empty or JSON-null bytes, reads as absent because `get` tests for it), and the `convertValue` conversion to the return type is the identity. So the marker object reads back as a hit with value `BlankObject`.
- Incr: a stored non-integral value and a count past 64 bits both read as 0 and change nothing. The text form of counters is not modelled.
- Aspect.CacheAspect.Around: the model computes the TTL with unbounded integers. In Java, `ttl + jitter` wraps around past 2^63-1. `Duration.of` throws ArithmeticException, after the method has run, once the amount in seconds passes 2^63-1 (for DAYS, a timeout of about 1.07e14). Neither is modelled.
- Keys.EvalAlwaysOkRegistered: SpEL's size limits are not modelled. Depending on the Spring version, an expression longer than 10,000 characters fails to parse, and a `+` concatenation longer than 100,000 characters throws, so a long String argument can make Java throw where the model yields a key.
- Keys.KeysAgree: its "computed without failure" half rests on `Keys.EvalAlwaysOkRegistered` and so leaves out the same SpEL size limits.
- Keys.StaticTextKeys: `generateKey`, which every enabled call runs first, evaluates unquoted static text with the expression engine, an opaque function here. SpEL generally fails on such text (`users:all`), so the call would throw.
- Store.Write: the expiry is kept to the nanosecond. Redis receives it in whole milliseconds (or seconds), so a sub-millisecond remainder is dropped there.
- JavaObjects.Obj: a non-integral Number is represented by its `toString()` text only.
- Decimal.ParseLong: accepts ASCII digits only. `Long.parseLong` also accepts other Unicode decimal digits.
- Demo.LoadUser: a null `Long` id, which would throw in `id.toString()`, is not modelled.
- `UserService.getUserById` and `updateUser` use Spring's `@Cacheable`/`@CacheEvict` rather than this aspect, and UserService is not part of this model beyond `getUser`.
