/**
 * What one interception by CacheAspect.around guarantees, stated over
 * `AroundSpec`, which `CacheAspect.Around` is proved to follow.
 */
module AroundProperties {
  import opened Wrappers
  import opened JavaObjects
  import opened Directive
  import opened Keys
  import opened Store
  import opened Aspect

  /** The key a miss writes under: the generateKey key when a refresh is forced, else the generateKeyBySpEL key. */
  function WriteKey(env: Env, d: KaimingCache, b: seq<Binding>, args: seq<Obj>): Result<string, Exc> {
    if ForceRefresh(args) then RefreshKey(env, d, b) else NormalKey(env, d, b)
  }

  /**
   * Every step before the store is consulted succeeds: the application name,
   * ttl2's placeholder and both key expressions.
   */
  predicate KeysOk(env: Env, d: KaimingCache, b: seq<Binding>, args: seq<Obj>) {
    AppNameResolves(env) && Ttl2(env, d).Ok? && RefreshKey(env, d, b).Ok? && WriteKey(env, d, b, args).Ok?
  }

  /**
   * With caching disabled in CacheContext the wrapped method runs once and its
   * outcome, a value, null or an exception, is passed through; no key is
   * generated, nothing is read and nothing is written.
   */
  lemma DisabledContextBypasses(env: Env, d: KaimingCache, pn: Option<seq<string>>, args: seq<Obj>,
                                beh: Outcome, data: Data, down: bool, jitter: int)
    requires pn.Some? ==> |pn.value| == |args|
    requires ValidJitter(d, jitter)
    ensures AroundSpec(env, false, d, pn, args, beh, data, down, jitter) == Run(beh, data, 1)
  {
  }

  /**
   * An unresolvable application name, a failing ttl2 placeholder or a
   * failing key expression propagates before the store is
   * read and before the wrapped method runs, with or without a forced refresh.
   */
  lemma KeyFailurePropagates(env: Env, d: KaimingCache, pn: Option<seq<string>>, args: seq<Obj>,
                             beh: Outcome, data: Data, down: bool, jitter: int)
    requires pn.Some? ==> |pn.value| == |args|
    requires ValidJitter(d, jitter)
    requires !KeysOk(env, d, Bindings(pn, args), args)
    ensures var run := AroundSpec(env, true, d, pn, args, beh, data, down, jitter);
      run.outcome.Threw? && run.data == data && run.proceeds == 0
  {
  }

  /**
   * A forced refresh skips the read: the outcome does not depend on the store,
   * the wrapped method runs once, and the write-back still happens under the
   * generateKey key.
   */
  lemma ForceRefreshSkipsRead(env: Env, d: KaimingCache, pn: Option<seq<string>>, args: seq<Obj>,
                              beh: Outcome, data: Data, data': Data, down: bool, jitter: int)
    requires pn.Some? ==> |pn.value| == |args|
    requires ValidJitter(d, jitter)
    requires ForceRefresh(args) && KeysOk(env, d, Bindings(pn, args), args)
    ensures var run := AroundSpec(env, true, d, pn, args, beh, data, down, jitter);
      run == Execute(d, RefreshKey(env, d, Bindings(pn, args)).value, beh, data, down, jitter)
      && run.proceeds == 1
      && run.outcome == AroundSpec(env, true, d, pn, args, beh, data', down, jitter).outcome
  {
  }

  /** A non-null value present at the key is returned as it is; the wrapped method does not run and the store is unchanged. */
  lemma CacheHit(env: Env, d: KaimingCache, pn: Option<seq<string>>, args: seq<Obj>,
                 beh: Outcome, data: Data, down: bool, jitter: int, v: Obj)
    requires pn.Some? ==> |pn.value| == |args|
    requires ValidJitter(d, jitter)
    requires !ForceRefresh(args) && KeysOk(env, d, Bindings(pn, args), args)
    requires Read(data, down, NormalKey(env, d, Bindings(pn, args)).value) == Some(v)
    ensures AroundSpec(env, true, d, pn, args, beh, data, down, jitter) == Run(Returned(v), data, 0)
  {
  }

  /**
   * On a miss the wrapped method runs exactly once. An exception propagates
   * and nothing is written; a non-null result is returned and written under
   * the very key that was read, with the computed TTL, and nowhere else.
   */
  lemma CacheMiss(env: Env, d: KaimingCache, pn: Option<seq<string>>, args: seq<Obj>,
                  beh: Outcome, data: Data, down: bool, jitter: int)
    requires pn.Some? ==> |pn.value| == |args|
    requires ValidJitter(d, jitter)
    requires !ForceRefresh(args) && KeysOk(env, d, Bindings(pn, args), args)
    requires Read(data, down, NormalKey(env, d, Bindings(pn, args)).value) == None
    ensures var key := NormalKey(env, d, Bindings(pn, args)).value;
      var run := AroundSpec(env, true, d, pn, args, beh, data, down, jitter);
      && run == Execute(d, key, beh, data, down, jitter)
      && run.proceeds == 1
      && (beh.Threw? ==> run == Run(beh, data, 1))
      && (beh.Returned? && beh.value != NullRef && WriteTtl(d, jitter).Ok? ==>
            run.outcome == beh
            && run.data == Write(data, down, key, beh.value, DurationOf(WriteTtl(d, jitter).value, d.timeUnit)))
      && (beh.Returned? && beh.value != NullRef && WriteTtl(d, jitter).Ok? && !down
          && DurationOf(WriteTtl(d, jitter).value, d.timeUnit) >= MinExpiry ==>
            Read(run.data, down, key) == Some(beh.value))
  {
    var key := NormalKey(env, d, Bindings(pn, args)).value;
    if beh.Returned? && beh.value != NullRef && WriteTtl(d, jitter).Ok? && !down
       && DurationOf(WriteTtl(d, jitter).value, d.timeUnit) >= MinExpiry {
      ReadAfterWrite(data, key, beh.value, DurationOf(WriteTtl(d, jitter).value, d.timeUnit));
    }
  }

  /**
   * Whatever the path: the wrapped method runs at most once; the store changes
   * only after it ran and returned; an exception from it never leads to a write.
   */
  lemma WritesOnlyAfterSuccessfulRun(env: Env, enabled: bool, d: KaimingCache, pn: Option<seq<string>>,
                                     args: seq<Obj>, beh: Outcome, data: Data, down: bool, jitter: int)
    requires pn.Some? ==> |pn.value| == |args|
    requires ValidJitter(d, jitter)
    ensures var run := AroundSpec(env, enabled, d, pn, args, beh, data, down, jitter);
      && run.proceeds <= 1
      && (run.data != data ==> run.proceeds == 1 && run.outcome == beh && beh.Returned?)
      && (run.proceeds == 0 ==> run.data == data)
  {
    var b := Bindings(pn, args);
    if enabled && AppNameResolves(env) && Ttl2(env, d).Ok? && RefreshKey(env, d, b).Ok? {
      if ForceRefresh(args) {
        ExecuteWritesOnlyOnReturn(d, RefreshKey(env, d, b).value, beh, data, down, jitter);
      } else if NormalKey(env, d, b).Ok? {
        ExecuteWritesOnlyOnReturn(d, NormalKey(env, d, b).value, beh, data, down, jitter);
      }
    }
  }

  /** The write-back follows a normal return of the wrapped method and nothing else. */
  lemma ExecuteWritesOnlyOnReturn(d: KaimingCache, key: string, beh: Outcome, data: Data, down: bool, jitter: int)
    requires ValidJitter(d, jitter)
    ensures var run := Execute(d, key, beh, data, down, jitter);
      run.data != data ==> run.outcome == beh && beh.Returned?
  {
  }

  /**
   * A null result writes the one-minute marker under the key, whatever
   * timeUnit and random say, and null is returned.
   */
  lemma NullResultWritesMarker(env: Env, d: KaimingCache, pn: Option<seq<string>>, args: seq<Obj>,
                               data: Data, down: bool, jitter: int)
    requires pn.Some? ==> |pn.value| == |args|
    requires ValidJitter(d, jitter)
    requires KeysOk(env, d, Bindings(pn, args), args)
    requires ForceRefresh(args) || Read(data, down, NormalKey(env, d, Bindings(pn, args)).value) == None
    ensures var run := AroundSpec(env, true, d, pn, args, Returned(NullRef), data, down, jitter);
      var key := WriteKey(env, d, Bindings(pn, args), args).value;
      && run.outcome == Returned(NullRef)
      && run.data == Write(data, down, key, BlankObject, NullMarkerTtl)
      && NullMarkerTtl == DurationOf(60, SECONDS)
  {
  }

  /** A forced refresh or a miss runs the method and writes back under WriteKey. */
  lemma MissExecutes(env: Env, d: KaimingCache, pn: Option<seq<string>>, args: seq<Obj>,
                     beh: Outcome, data: Data, down: bool, jitter: int)
    requires pn.Some? ==> |pn.value| == |args|
    requires ValidJitter(d, jitter)
    requires KeysOk(env, d, Bindings(pn, args), args)
    requires ForceRefresh(args) || Read(data, down, NormalKey(env, d, Bindings(pn, args)).value) == None
    ensures AroundSpec(env, true, d, pn, args, beh, data, down, jitter)
         == Execute(d, WriteKey(env, d, Bindings(pn, args), args).value, beh, data, down, jitter)
  {
  }

  /**
   * The TTL a value is written with: exactly timeout() in timeUnit without
   * `random`; with it, in [timeout, timeout + timeout/5). With `random` and a
   * timeout under 5, nextLong throws after the method ran and nothing is
   * written. A duration under a millisecond (a zero timeout, say) is refused
   * by the store: the value is returned and nothing is written.
   */
  lemma WrittenTtl(env: Env, d: KaimingCache, pn: Option<seq<string>>, args: seq<Obj>,
                   v: Obj, data: Data, jitter: int)
    requires pn.Some? ==> |pn.value| == |args|
    requires ValidJitter(d, jitter)
    requires KeysOk(env, d, Bindings(pn, args), args) && v != NullRef
    requires ForceRefresh(args) || Read(data, false, NormalKey(env, d, Bindings(pn, args)).value) == None
    ensures var run := AroundSpec(env, true, d, pn, args, Returned(v), data, false, jitter);
      var key := WriteKey(env, d, Bindings(pn, args), args).value;
      && (d.random && d.timeout < 5 ==> run == Run(Threw(IllegalArgument("bound must be positive")), data, 1))
      && (!d.random && DurationOf(d.timeout, d.timeUnit) >= MinExpiry ==>
            run.outcome == Returned(v) && run.data == data[key := Entry(v, Some(DurationOf(d.timeout, d.timeUnit)))])
      && (!d.random && DurationOf(d.timeout, d.timeUnit) < MinExpiry ==> run == Run(Returned(v), data, 1))
      && (d.random && d.timeout >= 5 && DurationOf(d.timeout, d.timeUnit) >= MinExpiry ==>
            run.outcome == Returned(v) && key in run.data && run.data[key].value == v && run.data[key].ttl.Some?
            && DurationOf(d.timeout, d.timeUnit) <= run.data[key].ttl.value
            && run.data[key].ttl.value < DurationOf(d.timeout + d.timeout / 5, d.timeUnit))
  {
    MissExecutes(env, d, pn, args, Returned(v), data, false, jitter);
    var key := WriteKey(env, d, Bindings(pn, args), args).value;
    if d.random && d.timeout >= 5 && DurationOf(d.timeout, d.timeUnit) >= MinExpiry {
      JitteredWrite(d, key, v, data, jitter);
    }
  }

  /** The write-back with `random`: the entry's TTL lies in the jitter window. */
  lemma JitteredWrite(d: KaimingCache, key: string, v: Obj, data: Data, jitter: int)
    requires ValidJitter(d, jitter) && v != NullRef
    requires d.random && d.timeout >= 5 && DurationOf(d.timeout, d.timeUnit) >= MinExpiry
    ensures var run := Execute(d, key, Returned(v), data, false, jitter);
      run.outcome == Returned(v) && key in run.data && run.data[key].value == v && run.data[key].ttl.Some?
      && DurationOf(d.timeout, d.timeUnit) <= run.data[key].ttl.value
      && run.data[key].ttl.value < DurationOf(d.timeout + d.timeout / 5, d.timeUnit)
  {
    var t := WriteTtl(d, jitter).value;
    DurationOrder(d.timeout, t, d.timeUnit);
    DurationOrder(t, d.timeout + d.timeout / 5, d.timeUnit);
    assert Execute(d, key, Returned(v), data, false, jitter)
        == Run(Returned(v), data[key := Entry(v, Some(DurationOf(t, d.timeUnit)))], 1);
  }

  /**
   * timeoutString never reaches the write: as long as its placeholder
   * resolves, two directives that differ only there behave identically.
   */
  lemma TimeoutStringIgnored(env: Env, enabled: bool, d: KaimingCache, s: string, pn: Option<seq<string>>,
                             args: seq<Obj>, beh: Outcome, data: Data, down: bool, jitter: int)
    requires pn.Some? ==> |pn.value| == |args|
    requires ValidJitter(d, jitter)
    requires Ttl2(env, d).Ok? && Ttl2(env, d.(timeoutString := s)).Ok?
    ensures ValidJitter(d.(timeoutString := s), jitter)
    ensures AroundSpec(env, enabled, d.(timeoutString := s), pn, args, beh, data, down, jitter)
         == AroundSpec(env, enabled, d, pn, args, beh, data, down, jitter)
  {
    var d' := d.(timeoutString := s);
    var b := Bindings(pn, args);
    assert RefreshKey(env, d', b) == RefreshKey(env, d, b);
    assert NormalKey(env, d', b) == NormalKey(env, d, b);
    WriteTtlIgnoresTimeoutString(d, s, jitter);
  }

  /**
   * A store that fails every command is never written, and the caller still
   * gets the wrapped method's own outcome from a single run.
   */
  lemma StoreFailureIsInvisible(env: Env, d: KaimingCache, pn: Option<seq<string>>, args: seq<Obj>,
                                beh: Outcome, data: Data, jitter: int)
    requires pn.Some? ==> |pn.value| == |args|
    requires ValidJitter(d, jitter)
    requires KeysOk(env, d, Bindings(pn, args), args)
    requires beh.Returned? && beh.value != NullRef ==> WriteTtl(d, jitter).Ok?
    ensures var run := AroundSpec(env, true, d, pn, args, beh, data, true, jitter);
      run == Run(beh, data, 1)
  {
  }

  /**
   * The null-penetration guard: after a miss whose method returned null, the
   * same call finds the marker and does not run the wrapped method again.
   */
  lemma MarkerAbsorbsRepeatedMiss(env: Env, d: KaimingCache, pn: Option<seq<string>>, args: seq<Obj>,
                                  beh: Outcome, data: Data, jitter: int, jitter': int)
    requires pn.Some? ==> |pn.value| == |args|
    requires ValidJitter(d, jitter) && ValidJitter(d, jitter')
    requires !ForceRefresh(args) && KeysOk(env, d, Bindings(pn, args), args)
    requires Read(data, false, NormalKey(env, d, Bindings(pn, args)).value) == None
    ensures var first := AroundSpec(env, true, d, pn, args, Returned(NullRef), data, false, jitter);
      var second := AroundSpec(env, true, d, pn, args, beh, first.data, false, jitter');
      first.proceeds == 1 && second == Run(Returned(BlankObject), first.data, 0)
  {
    var key := NormalKey(env, d, Bindings(pn, args)).value;
    assert NullMarkerTtl >= MinExpiry;
    ReadAfterWrite(data, key, BlankObject, NullMarkerTtl);
  }
}
