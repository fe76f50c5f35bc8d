/**
 * DemoService: two methods under @KaimingCache, used here as worked
 * examples of what the aspect does with a concrete directive.
 */
module Demo {
  import opened Wrappers
  import opened JavaObjects
  import opened Decimal
  import opened Directive
  import opened Keys
  import opened Store
  import opened Aspect
  import opened AroundProperties

  /** The body shared by getUserById and getUser: a UserDTO whose name is the id's text. */
  function LoadUser(id: int): (u: Obj)
    ensures u.User? && u.dto.id == id && ParseDecimal(u.dto.name) == Some(id)
  {
    IntRoundTrip(id);
    User(UserDto(id, IntToString(id)))
  }

  /** Both methods take one parameter, named `id`. */
  const IdParam: Option<seq<string>> := Some(["id"])

  /** @KaimingCache(key = "'user:info:' + #id", timeout = 30, timeUnit = MINUTES) */
  const GetUserByIdCache: KaimingCache := KaimingCache("'user:info:' + #id", 30, DefaultTimeoutString, MINUTES, DefaultRandom)

  /** @KaimingCache(key = "'${app.cache.prefix}user:' + #id", timeoutString = "${app.cache.search.ttl:300}") */
  const GetUserCache: KaimingCache :=
    KaimingCache("'${app.cache.prefix}user:' + #id", DefaultTimeout, "${app.cache.search.ttl:300}", DefaultTimeUnit, DefaultRandom)

  /** `id` is an ordinary variable name: not one of SpEL's textual operators. */
  lemma IdIsVarName()
    ensures IsVarName("id")
  {
    var upper := seq(|"id"|, i requires 0 <= i < |"id"| => AsciiUpper("id"[i]));
    assert upper[0] == 'I' && upper[1] == 'D';
    assert upper == "ID";
  }

  /** A template of one literal and `#id`, evaluated with `id` bound to a Long. */
  lemma LiteralThenId(env: Env, prefix: string, id: int, hashRegistered: bool)
    requires '\'' !in prefix
    ensures Evaluate(env, "'" + prefix + "' + #id", Bindings(IdParam, [Num(id)]), hashRegistered)
         == Ok(prefix + IntToString(id))
  {
    var ts := [Literal(prefix), Variable("id")];
    IdIsVarName();
    ParseRender(ts);
    RenderLiteralThenId(prefix);
    EvalLiteralThenId(env, prefix, id, hashRegistered);
  }

  lemma RenderLiteralThenId(prefix: string)
    ensures Render([Literal(prefix), Variable("id")]) == "'" + prefix + "' + #id"
  {
    var ts := [Literal(prefix), Variable("id")];
    assert Render(ts[1..]) == "#id";
  }

  lemma EvalLiteralThenId(env: Env, prefix: string, id: int, hashRegistered: bool)
    ensures EvalTerms(env, [Literal(prefix), Variable("id")], Bindings(IdParam, [Num(id)]), hashRegistered)
         == Ok(prefix + IntToString(id))
  {
    var ts := [Literal(prefix), Variable("id")];
    var b := Bindings(IdParam, [Num(id)]);
    assert b == [Binding("id", Num(id))];
    assert ts[1..][1..] == [];
    assert EvalTerms(env, ts[1..], b, hashRegistered) == Ok(IntToString(id) + "");
    assert IntToString(id) + "" == IntToString(id);
  }

  /** Text without a '{' holds no placeholder. */
  lemma NoBraceNoPlaceholder(s: string)
    requires '{' !in s
    ensures !HasPlaceholder(s)
  {
  }

  /** getUserById's template holds no placeholder: the resolver returns it as it is. */
  lemma GetUserByIdTemplateResolves(env: Env)
    ensures ResolveValue(env, GetUserByIdCache.key) == Resolved(GetUserByIdCache.key)
  {
    assert GetUserByIdCache.key == "'" + "user:info:" + "' + #id";
    LiteralThenIdNoPlaceholder("user:info:");
  }

  /** A literal without '{' followed by `#id` holds no placeholder. */
  lemma LiteralThenIdNoPlaceholder(prefix: string)
    requires '{' !in prefix
    ensures !HasPlaceholder("'" + prefix + "' + #id")
  {
    var s := "'" + prefix + "' + #id";
    forall i | 0 <= i < |s|
      ensures s[i] != '{'
    {
      if 1 <= i <= |prefix| {
        assert s[i] == prefix[i - 1];
      }
    }
    NoBraceNoPlaceholder(s);
  }

  /** getUserById's template evaluates to "user:info:" and the id, with or without #hash registered. */
  lemma GetUserByIdTemplateEvaluates(env: Env, id: int, hashRegistered: bool)
    ensures Evaluate(env, GetUserByIdCache.key, Bindings(IdParam, [Num(id)]), hashRegistered)
         == Ok("user:info:" + IntToString(id))
  {
    var template := GetUserByIdCache.key;
    assert template == "'" + "user:info:" + "' + #id";
    LiteralThenId(env, "user:info:", id, hashRegistered);
  }

  /** Both keys of getUserById are "user:info:" and the id; ttl2 needs no resolver. */
  lemma GetUserByIdKeys(env: Env, id: int)
    ensures var b := Bindings(IdParam, [Num(id)]);
      && Ttl2(env, GetUserByIdCache) == Ok(30)
      && RefreshKey(env, GetUserByIdCache, b) == Ok("user:info:" + IntToString(id))
      && NormalKey(env, GetUserByIdCache, b) == Ok("user:info:" + IntToString(id))
  {
    GetUserByIdTemplateResolves(env);
    GetUserByIdTemplateEvaluates(env, id, true);
    GetUserByIdTemplateEvaluates(env, id, false);
    assert GetUserByIdCache.key[15] == '#';
  }

  /** A Long argument never asks for a forced refresh. */
  lemma IdNeverForcesRefresh(id: int)
    ensures !ForceRefresh([Num(id)])
  {
    assert !RequestsRefresh([Num(id)][0]);
  }

  /**
   * getUserById(id), caching enabled, store up, any resolver that knows the
   * application name: a non-null value stored at "user:info:" and the id is
   * returned without running the method.
   */
  lemma GetUserByIdHit(env: Env, id: int, data: Data, jitter: int)
    requires AppNameResolves(env)
    requires ValidJitter(GetUserByIdCache, jitter)
    requires "user:info:" + IntToString(id) in data
    requires data["user:info:" + IntToString(id)].value != NullRef
    ensures var key := "user:info:" + IntToString(id);
      AroundSpec(env, true, GetUserByIdCache, IdParam, [Num(id)], Returned(LoadUser(id)), data, false, jitter)
      == Run(Returned(data[key].value), data, 0)
  {
    var key := "user:info:" + IntToString(id);
    GetUserByIdKeys(env, id);
    IdNeverForcesRefresh(id);
    CacheHit(env, GetUserByIdCache, IdParam, [Num(id)], Returned(LoadUser(id)), data, false, jitter, data[key].value);
  }

  /**
   * getUserById(id) on a miss (nothing stored, or a stored null): the method runs once, its user is returned and
   * kept at "user:info:" and the id for 30 to 35 minutes.
   */
  lemma GetUserByIdMiss(env: Env, id: int, data: Data, jitter: int)
    requires AppNameResolves(env)
    requires ValidJitter(GetUserByIdCache, jitter)
    requires "user:info:" + IntToString(id) !in data || data["user:info:" + IntToString(id)].value == NullRef
    ensures var key := "user:info:" + IntToString(id);
      var run := AroundSpec(env, true, GetUserByIdCache, IdParam, [Num(id)], Returned(LoadUser(id)), data, false, jitter);
      && run.outcome == Returned(LoadUser(id)) && run.proceeds == 1
      && key in run.data && run.data[key].value == LoadUser(id) && run.data[key].ttl.Some?
      && DurationOf(30, MINUTES) <= run.data[key].ttl.value < DurationOf(36, MINUTES)
  {
    GetUserByIdKeys(env, id);
    IdNeverForcesRefresh(id);
    CacheMiss(env, GetUserByIdCache, IdParam, [Num(id)], Returned(LoadUser(id)), data, false, jitter);
    WrittenTtl(env, GetUserByIdCache, IdParam, [Num(id)], LoadUser(id), data, jitter);
    var d := GetUserByIdCache;
    assert d.timeout == 30 && d.timeout + d.timeout / 5 == 36 && d.timeUnit == MINUTES && d.random;
  }

  /** getUser's template evaluates to its literal text, placeholder included, and the id. */
  lemma GetUserTemplateEvaluates(env: Env, id: int)
    ensures Evaluate(env, GetUserCache.key, Bindings(IdParam, [Num(id)]), false)
         == Ok("${app.cache.prefix}user:" + IntToString(id))
  {
    var template := GetUserCache.key;
    assert template == "'" + "${app.cache.prefix}user:" + "' + #id";
    LiteralThenId(env, "${app.cache.prefix}user:", id, false);
  }

  /**
   * getUser's normal-path key keeps the placeholder text: generateKeyBySpEL
   * is given the raw template, under any resolver.
   */
  lemma GetUserNormalKey(env: Env, id: int)
    ensures NormalKey(env, GetUserCache, Bindings(IdParam, [Num(id)])) == Ok("${app.cache.prefix}user:" + IntToString(id))
  {
    GetUserTemplateEvaluates(env, id);
    assert GetUserCache.key[29] == '#';
  }

  /**
   * getUser(id) on a miss, whenever the placeholders resolve: the user is
   * kept under the placeholder-text key for the default 60 to 71 seconds,
   * whatever app.cache.search.ttl says.
   */
  lemma GetUserMiss(env: Env, id: int, data: Data, jitter: int)
    requires ValidJitter(GetUserCache, jitter)
    requires KeysOk(env, GetUserCache, Bindings(IdParam, [Num(id)]), [Num(id)])
    requires "${app.cache.prefix}user:" + IntToString(id) !in data
    ensures var key := "${app.cache.prefix}user:" + IntToString(id);
      var run := AroundSpec(env, true, GetUserCache, IdParam, [Num(id)], Returned(LoadUser(id)), data, false, jitter);
      && run.outcome == Returned(LoadUser(id)) && run.proceeds == 1 && key in run.data && run.data[key].value == LoadUser(id) && run.data[key].ttl.Some?
      && DurationOf(60, SECONDS) <= run.data[key].ttl.value < DurationOf(72, SECONDS)
  {
    GetUserNormalKey(env, id);
    IdNeverForcesRefresh(id);
    WrittenTtl(env, GetUserCache, IdParam, [Num(id)], LoadUser(id), data, jitter);
    var d := GetUserCache;
    assert d.timeout == 60 && d.timeout + d.timeout / 5 == 72 && d.timeUnit == SECONDS && d.random;
  }

  /**
   * A resolver holding app.cache.prefix = "prod:v1:" and
   * app.cache.search.ttl = 600, the values DemoService's comments assume.
   */
  function ProdResolve(s: string): Resolution {
    if s == GetUserCache.key then Resolved("'prod:v1:user:' + #id")
    else if s == GetUserCache.timeoutString then Resolved("600")
    else Unresolvable(s)
  }

  lemma ParseSixHundred()
    ensures ParseLong("600") == Some(600)
  {
    assert AllDigits("600");
    assert "600"[..2] == "60" && "60"[..1] == "6" && "6"[..0] == [];
    assert ParseNat("6") == 6;
    assert ParseNat("60") == 60;
  }

  /** Under that resolver ttl2 is 600: parsed, then never used. */
  lemma ProdTtl2(env: Env)
    requires env.resolvePlaceholders == ProdResolve
    ensures Ttl2(env, GetUserCache) == Ok(600)
  {
    var t := GetUserCache.timeoutString;
    assert HasText(t) by { assert !IsJavaWhitespace(t[0]); }
    ProdResolvesTtl(env);
    ParseSixHundred();
  }

  lemma ProdResolvesTtl(env: Env)
    requires env.resolvePlaceholders == ProdResolve
    ensures ResolveValue(env, GetUserCache.timeoutString) == Resolved("600")
  {
    var t := GetUserCache.timeoutString;
    assert HasPlaceholder(t) by { assert t[0] == '$' && t[1] == '{'; }
    assert ProdResolve(t) == Resolved("600") by { assert t != GetUserCache.key by { assert t[0] != GetUserCache.key[0]; } }
  }

  lemma ProdResolvesKey(env: Env)
    requires env.resolvePlaceholders == ProdResolve
    ensures ResolveValue(env, GetUserCache.key) == Resolved("'prod:v1:user:' + #id")
  {
    var template := GetUserCache.key;
    assert HasPlaceholder(template) by { assert template[1] == '$' && template[2] == '{'; }
  }

  /** Under that resolver the resolved-template key is "prod:v1:user:" and the id. */
  lemma ProdRefreshKey(env: Env, id: int)
    requires env.resolvePlaceholders == ProdResolve
    ensures RefreshKey(env, GetUserCache, Bindings(IdParam, [Num(id)])) == Ok("prod:v1:user:" + IntToString(id))
  {
    ProdResolvesKey(env);
    assert "'prod:v1:user:' + #id" == "'" + "prod:v1:user:" + "' + #id";
    LiteralThenId(env, "prod:v1:user:", id, true);
  }

  /**
   * So with the values the comments assume, the key getUser computes first
   * and the key it reads and writes name different entries.
   */
  lemma ProdKeysDiverge(env: Env, id: int)
    requires env.resolvePlaceholders == ProdResolve
    ensures var b := Bindings(IdParam, [Num(id)]);
      && Ttl2(env, GetUserCache) == Ok(600)
      && RefreshKey(env, GetUserCache, b) == Ok("prod:v1:user:" + IntToString(id))
      && NormalKey(env, GetUserCache, b) == Ok("${app.cache.prefix}user:" + IntToString(id))
      && RefreshKey(env, GetUserCache, b) != NormalKey(env, GetUserCache, b)
  {
    ProdTtl2(env);
    ProdRefreshKey(env, id);
    GetUserNormalKey(env, id);
    var k1 := "prod:v1:user:" + IntToString(id);
    var k2 := "${app.cache.prefix}user:" + IntToString(id);
    assert k1[0] != k2[0];
  }
}
