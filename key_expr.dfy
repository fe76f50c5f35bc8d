/**
 * Cache-key derivation: `${...}` resolution, SpEL evaluation of the key
 * template over the call's arguments, and the #hash() function.
 *
 * Spring's resolver and expression engine are not modelled: they are the
 * function fields of `Env`. Three things are concrete. Text that contains
 * neither "${" nor "#{" resolves to itself. A small fragment of SpEL, a
 * string literal followed by " + "-joined literals, variables and
 * `#hash(#v)` calls, is evaluated here. And calculateHash's handling of null,
 * String, Number and Boolean is written out.
 */
module Keys {
  import opened Wrappers
  import opened JavaObjects
  import Decimal

  /** What StringValueResolver.resolveStringValue gives back. */
  datatype Resolution =
    | Resolved(text: string)
      /** the resolver returned null */
    | NoValue
      /** a placeholder with no value and no default: IllegalArgumentException */
    | Unresolvable(placeholder: string)

  /** A variable of the SpEL evaluation context: a parameter's name and its argument. */
  datatype Binding = Binding(name: string, value: Obj)

  /** The collaborators whose behaviour the model does not look inside. */
  datatype Env = Env(
    /** resolveStringValue on text that holds "${" or "#{" */
    resolvePlaceholders: string -> Resolution,
    /** SpEL evaluation of an expression outside the fragment; the flag says whether #hash is registered */
    evaluate: (string, seq<Binding>, bool) -> Result<string, Exc>,
    /** the digest branch of calculateHash: MD5 of sorted-key JSON, or hashCode when serialising fails */
    digest: Obj -> string,
    /** toString() of an object that is not a String, Number or Boolean */
    toText: Obj -> string)

  predicate HasPair(s: string, a: char, b: char) {
    exists i :: 0 <= i < |s| - 1 && s[i] == a && s[i + 1] == b
  }

  /** Text the resolver would change: a "${" placeholder or a "#{" expression. */
  predicate HasPlaceholder(s: string) {
    HasPair(s, '$', '{') || HasPair(s, '#', '{')
  }

  /** valueResolver.resolveStringValue(s) */
  function ResolveValue(env: Env, s: string): (r: Resolution)
    ensures !HasPlaceholder(s) ==> r == Resolved(s)
  {
    if HasPlaceholder(s) then env.resolvePlaceholders(s) else Resolved(s)
  }

  /**
   * The evaluation context's variables: parameter i named paramNames[i] holds
   * args[i]; with no parameter names available no variable is set.
   */
  function Bindings(paramNames: Option<seq<string>>, args: seq<Obj>): (b: seq<Binding>)
    requires paramNames.Some? ==> |paramNames.value| == |args|
    ensures |b| == if paramNames.Some? then |args| else 0
    ensures paramNames.Some? ==> forall i :: 0 <= i < |b| ==> b[i] == Binding(paramNames.value[i], args[i])
  {
    match paramNames
    case None => []
    case Some(names) => seq(|args|, i requires 0 <= i < |args| => Binding(names[i], args[i]))
  }

  /** `#name`: the last value set under that name; an unset variable is null. */
  function Lookup(b: seq<Binding>, name: string): (o: Obj)
    ensures (forall i :: 0 <= i < |b| ==> b[i].name != name) ==> o == NullRef
  {
    if b == [] then NullRef
    else if b[|b| - 1].name == name then b[|b| - 1].value
    else Lookup(b[..|b| - 1], name)
  }

  /** `#name` is the value of the last binding under that name. */
  lemma {:induction false} LookupFindsLast(b: seq<Binding>, name: string, i: nat)
    requires i < |b| && b[i].name == name
    requires forall j :: i < j < |b| ==> b[j].name != name
    ensures Lookup(b, name) == b[i].value
    decreases |b|
  {
    if i < |b| - 1 {
      var front := b[..|b| - 1];
      assert forall j :: i < j < |front| ==> front[j] == b[j];
      LookupFindsLast(front, name, i);
    }
  }

  /**
   * Over the evaluation context built from a call: `#p` yields the argument of
   * the parameter named p (the last one, should two share the name).
   */
  lemma VariableYieldsArgument(names: seq<string>, args: seq<Obj>, i: nat)
    requires |names| == |args| && i < |names|
    requires forall j :: i < j < |names| ==> names[j] != names[i]
    ensures Lookup(Bindings(Some(names), args), names[i]) == args[i]
  {
    LookupFindsLast(Bindings(Some(names), args), names[i], i);
  }

  // ---------------------------------------------------------------- calculateHash

  predicate IsPrimitive(o: Obj) {
    o.Str? || o.Num? || o.Fractional? || o.Bool?
  }

  /** String.valueOf of a String, Number or Boolean. */
  function ValueOf(o: Obj): string
    requires IsPrimitive(o)
  {
    match o
    case Str(t) => t
    case Num(n) => Decimal.IntToString(n)
    case Fractional(t) => t
    case Bool(b) => if b then "true" else "false"
  }

  /** CacheAspect.calculateHash, the function registered as #hash. */
  function CalculateHash(env: Env, o: Obj): string {
    if o.NullRef? then "null"
    else if IsPrimitive(o) then ValueOf(o)
    else env.digest(o)
  }

  /**
   * Null and the primitive values are not digested: null gives "null", a
   * String itself, an integral Number its decimal text, which parses back to
   * the number, any other Number its toString() text, a Boolean "true" or
   * "false"; none of it depends on the serialiser or digest.
   */
  lemma HashOfPrimitives(env: Env, env': Env, o: Obj)
    ensures o.NullRef? ==> CalculateHash(env, o) == "null"
    ensures o.Str? ==> CalculateHash(env, o) == o.text
    ensures o.Num? ==> Decimal.ParseDecimal(CalculateHash(env, o)) == Some(o.n)
    ensures o.Fractional? ==> CalculateHash(env, o) == o.text
    ensures o.Bool? ==> CalculateHash(env, o) == if o.b then "true" else "false"
    ensures (o.NullRef? || IsPrimitive(o)) ==> CalculateHash(env, o) == CalculateHash(env', o)
    ensures !o.NullRef? && !IsPrimitive(o) ==> CalculateHash(env, o) == env.digest(o)
  {
    if o.Num? {
      Decimal.IntRoundTrip(o.n);
    }
  }

  /** Two numbers hash alike only if they are equal. */
  lemma NumberHashInjective(env: Env, m: int, n: int)
    requires CalculateHash(env, Num(m)) == CalculateHash(env, Num(n))
    ensures m == n
  {
    Decimal.IntToStringInjective(m, n);
  }

  // ---------------------------------------------------------------- the SpEL fragment

  /** One operand of a `+` chain. */
  datatype Term =
    | Literal(text: string)
    | Variable(name: string)
    | HashOf(name: string)

  predicate IsIdentStart(c: char) {
    'a' <= c <= 'z' || 'A' <= c <= 'Z' || c == '_' || c == '$'
  }

  predicate IsIdentPart(c: char) {
    IsIdentStart(c) || Decimal.IsDigit(c)
  }

  function AsciiUpper(c: char): char {
    if 'a' <= c <= 'z' then (c as int - 32) as char else c
  }

  /** SpEL's tokenizer reads these words, in any case, as operators rather than identifiers. */
  const TextualOperators: set<string> := {"DIV", "EQ", "GE", "GT", "LE", "LT", "MOD", "NE", "NOT"}

  predicate IsTextualOperator(n: string) {
    seq(|n|, i requires 0 <= i < |n| => AsciiUpper(n[i])) in TextualOperators
  }

  /**
   * A variable name the fragment evaluates itself. Left to the expression
   * engine are #this and #root, which are SpEL's own; #hash, which names the
   * registered function wherever generateKey registers it; and the textual
   * operators, which do not parse as variable names.
   */
  predicate IsVarName(n: string) {
    |n| > 0 && IsIdentStart(n[0]) && (forall i :: 0 <= i < |n| ==> IsIdentPart(n[i]))
    && n != "this" && n != "root" && n != "hash" && !IsTextualOperator(n)
  }

  predicate WellFormed(t: Term) {
    match t
    case Literal(x) => '\'' !in x
    case Variable(n) => IsVarName(n)
    case HashOf(n) => IsVarName(n)
  }

  /** Length of the longest prefix of identifier characters. */
  function IdentLength(s: string): (n: nat)
    ensures n <= |s|
    ensures forall i :: 0 <= i < n ==> IsIdentPart(s[i])
    ensures n < |s| ==> !IsIdentPart(s[n])
  {
    if s == [] || !IsIdentPart(s[0]) then 0 else 1 + IdentLength(s[1..])
  }

  /** Index of the first quote at or after `from`, or |s| when there is none. */
  function QuoteIndex(s: string, from: nat): (j: nat)
    requires from <= |s|
    ensures from <= j <= |s|
    ensures j < |s| ==> s[j] == '\''
    ensures forall i :: from <= i < j ==> s[i] != '\''
    decreases |s| - from
  {
    if from == |s| || s[from] == '\'' then from else QuoteIndex(s, from + 1)
  }

  const HashCallPrefix: string := "#hash(#"

  /** One term at the start of s, and the text after it. */
  function ParseTerm(s: string): (r: Option<(Term, string)>)
    ensures r.Some? ==> |r.value.1| < |s|
  {
    if |s| > 0 && s[0] == '\'' then
      var j := QuoteIndex(s, 1);
      if j < |s| then Some((Literal(s[1..j]), s[j + 1..])) else None
    else if |s| >= 7 && s[..7] == HashCallPrefix then
      var n := IdentLength(s[7..]);
      if IsVarName(s[7..7 + n]) && 7 + n < |s| && s[7 + n] == ')' then Some((HashOf(s[7..7 + n]), s[8 + n..]))
      else None
    else if |s| > 0 && s[0] == '#' then
      var n := IdentLength(s[1..]);
      if IsVarName(s[1..1 + n]) then Some((Variable(s[1..1 + n]), s[1 + n..])) else None
    else None
  }

  /** Terms joined by " + ", the whole text consumed. */
  function ParseTerms(s: string): (r: Option<seq<Term>>)
    ensures r.Some? ==> |r.value| > 0
    decreases |s|
  {
    match ParseTerm(s)
    case None => None
    case Some((t, rest)) =>
      if rest == [] then Some([t])
      else if |rest| >= 3 && rest[..3] == " + " then
        match ParseTerms(rest[3..])
        case None => None
        case Some(ts) => Some([t] + ts)
      else None
  }

  function RenderTerm(t: Term): string {
    match t
    case Literal(x) => "'" + x + "'"
    case Variable(n) => "#" + n
    case HashOf(n) => HashCallPrefix + n + ")"
  }

  /** The template text that spells out a chain of terms. */
  function Render(ts: seq<Term>): string
    requires |ts| > 0
  {
    if |ts| == 1 then RenderTerm(ts[0]) else RenderTerm(ts[0]) + " + " + Render(ts[1..])
  }

  lemma NotHashCall(n: string, suffix: string)
    requires IsVarName(n)
    requires suffix == [] || suffix[0] == ' '
    ensures var s := "#" + n + suffix; !(|s| >= 7 && s[..7] == HashCallPrefix)
  {
    var s := "#" + n + suffix;
    if |n| >= 5 {
      assert s[5] == n[4];
    } else if |s| >= 7 {
      assert s[|n| + 1] == suffix[0];
    }
  }

  lemma ParseRenderedLiteral(x: string, suffix: string)
    requires '\'' !in x
    ensures ParseTerm(RenderTerm(Literal(x)) + suffix) == Some((Literal(x), suffix))
  {
    var s := RenderTerm(Literal(x)) + suffix;
    assert s[0] == '\'';
    assert s[|x| + 1] == '\'';
    assert forall i :: 1 <= i < |x| + 1 ==> s[i] == x[i - 1];
    assert QuoteIndex(s, 1) == |x| + 1;
    assert s[1..|x| + 1] == x;
    assert s[|x| + 2..] == suffix;
  }

  /** The identifier scan stops exactly at the end of a name. */
  lemma IdentLengthOfName(n: string, after: string)
    requires forall i :: 0 <= i < |n| ==> IsIdentPart(n[i])
    requires after == [] || !IsIdentPart(after[0])
    ensures IdentLength(n + after) == |n|
  {
    var rest := n + after;
    assert forall i :: 0 <= i < |n| ==> rest[i] == n[i];
    assert |n| < |rest| ==> rest[|n|] == after[0];
  }

  lemma ParseRenderedVariable(n: string, suffix: string)
    requires IsVarName(n)
    requires suffix == [] || suffix[0] == ' '
    ensures ParseTerm(RenderTerm(Variable(n)) + suffix) == Some((Variable(n), suffix))
  {
    var s := RenderTerm(Variable(n)) + suffix;
    assert s == "#" + n + suffix;
    NotHashCall(n, suffix);
    assert s[1..] == n + suffix;
    IdentLengthOfName(n, suffix);
    assert s[1..1 + |n|] == n;
    assert s[1 + |n|..] == suffix;
  }

  lemma ParseRenderedHash(n: string, suffix: string)
    requires IsVarName(n)
    ensures ParseTerm(RenderTerm(HashOf(n)) + suffix) == Some((HashOf(n), suffix))
  {
    var s := RenderTerm(HashOf(n)) + suffix;
    var after := ")" + suffix;
    assert s == HashCallPrefix + (n + after);
    assert s[0] == '#' && |s| >= 7 && s[..7] == HashCallPrefix;
    assert s[7..] == n + after;
    IdentLengthOfName(n, after);
    assert s[7..7 + |n|] == n;
    assert s[7 + |n|] == ')';
    assert s[8 + |n|..] == suffix;
  }

  /** A well-formed term followed by nothing or by a space parses back to itself. */
  lemma ParseRenderedTerm(t: Term, suffix: string)
    requires WellFormed(t)
    requires suffix == [] || suffix[0] == ' '
    ensures ParseTerm(RenderTerm(t) + suffix) == Some((t, suffix))
  {
    match t
    case Literal(x) => ParseRenderedLiteral(x, suffix);
    case Variable(n) => ParseRenderedVariable(n, suffix);
    case HashOf(n) => ParseRenderedHash(n, suffix);
  }

  /** Parsing inverts rendering: every well-formed chain of terms is read back as written. */
  lemma {:induction false} ParseRender(ts: seq<Term>)
    requires |ts| > 0 && forall i :: 0 <= i < |ts| ==> WellFormed(ts[i])
    ensures ParseTerms(Render(ts)) == Some(ts)
    decreases |ts|
  {
    if |ts| == 1 {
      ParseRenderedTerm(ts[0], []);
      assert RenderTerm(ts[0]) + [] == Render(ts);
      assert ts == [ts[0]];
    } else {
      var tail := " + " + Render(ts[1..]);
      ParseRenderedTerm(ts[0], tail);
      assert Render(ts) == RenderTerm(ts[0]) + tail;
      assert tail[..3] == " + " && tail[3..] == Render(ts[1..]);
      ParseRender(ts[1..]);
      assert [ts[0]] + ts[1..] == ts;
    }
  }

  /** How `+` turns a non-String operand into text once the left operand is a String. */
  function StringForm(env: Env, o: Obj): string {
    if o.NullRef? then "null"
    else if IsPrimitive(o) then ValueOf(o)
    else env.toText(o)
  }

  /** The text of one term, or the failure of calling #hash where it is not registered. */
  function EvalTerm(env: Env, t: Term, b: seq<Binding>, hashRegistered: bool): Result<string, Exc> {
    match t
    case Literal(x) => Ok(x)
    case Variable(n) => Ok(StringForm(env, Lookup(b, n)))
    case HashOf(n) =>
      if hashRegistered then Ok(CalculateHash(env, Lookup(b, n)))
      else Err(ExpressionError("function 'hash' is not defined"))
  }

  /** Left-to-right string concatenation; the first failing term ends the evaluation. */
  function EvalTerms(env: Env, ts: seq<Term>, b: seq<Binding>, hashRegistered: bool): Result<string, Exc>
    decreases |ts|
  {
    if ts == [] then Ok("")
    else match EvalTerm(env, ts[0], b, hashRegistered)
      case Err(e) => Err(e)
      case Ok(x) =>
        match EvalTerms(env, ts[1..], b, hashRegistered)
        case Err(e) => Err(e)
        case Ok(y) => Ok(x + y)
  }

  /** parser.parseExpression(template).getValue(context, String.class) */
  function Evaluate(env: Env, template: string, b: seq<Binding>, hashRegistered: bool): Result<string, Exc> {
    match ParseTerms(template)
    case Some(ts) =>
      if ts[0].Literal? then EvalTerms(env, ts, b, hashRegistered)
      else env.evaluate(template, b, hashRegistered)
    case None => env.evaluate(template, b, hashRegistered)
  }

  /** generateKeyBySpEL: a template without '#' is the key itself; #hash is not registered here. */
  function GenerateKeyBySpel(env: Env, template: string, b: seq<Binding>): Result<string, Exc> {
    if '#' !in template then Ok(template) else Evaluate(env, template, b, false)
  }

  /** generateKey: always evaluated, with #hash registered. */
  function GenerateKey(env: Env, template: string, b: seq<Binding>): Result<string, Exc> {
    Evaluate(env, template, b, true)
  }

  predicate NoHashCall(ts: seq<Term>) {
    forall i :: 0 <= i < |ts| ==> !ts[i].HashOf?
  }

  /** Whether #hash is registered matters only to terms that call it. */
  lemma {:induction false} RegistrationIrrelevant(env: Env, ts: seq<Term>, b: seq<Binding>)
    requires NoHashCall(ts)
    ensures EvalTerms(env, ts, b, true) == EvalTerms(env, ts, b, false)
    decreases |ts|
  {
    if ts != [] {
      RegistrationIrrelevant(env, ts[1..], b);
    }
  }

  /** A fragment template that calls #hash cannot be evaluated without the registration. */
  lemma {:induction false} UnregisteredHashFails(env: Env, ts: seq<Term>, b: seq<Binding>)
    requires !NoHashCall(ts)
    ensures EvalTerms(env, ts, b, false).Err?
    decreases |ts|
  {
    if !ts[0].HashOf? {
      assert !NoHashCall(ts[1..]) by {
        var i :| 0 <= i < |ts| && ts[i].HashOf?;
        assert ts[1..][i - 1] == ts[i];
      }
      UnregisteredHashFails(env, ts[1..], b);
    }
  }

  /**
   * Plain text with neither '#' nor a placeholder: generateKeyBySpEL returns it
   * unchanged, while generateKey hands unquoted text to the expression engine.
   */
  lemma StaticTextKeys(env: Env, template: string, b: seq<Binding>)
    requires '#' !in template && !HasPlaceholder(template)
    ensures ResolveValue(env, template) == Resolved(template)
    ensures GenerateKeyBySpel(env, template, b) == Ok(template)
    ensures (template == [] || template[0] != '\'') ==> GenerateKey(env, template, b) == env.evaluate(template, b, true)
  {
    if template != [] && template[0] != '\'' {
      assert template[0] != '#';
      assert |template| >= 7 ==> template[..7][0] == template[0];
    }
  }

  /**
   * The force-refresh key (resolved, then generateKey) and the normal key
   * (generateKeyBySpEL on the raw template) agree for a fragment template that
   * holds no placeholder and no #hash call.
   */
  lemma KeysAgree(env: Env, ts: seq<Term>, b: seq<Binding>)
    requires |ts| > 0 && ts[0].Literal? && NoHashCall(ts)
    requires forall i :: 0 <= i < |ts| ==> WellFormed(ts[i])
    requires !HasPlaceholder(Render(ts)) && '#' in Render(ts)
    ensures ResolveValue(env, Render(ts)) == Resolved(Render(ts))
    ensures GenerateKey(env, Render(ts), b) == GenerateKeyBySpel(env, Render(ts), b)
    ensures GenerateKey(env, Render(ts), b).Ok?
  {
    ParseRender(ts);
    RegistrationIrrelevant(env, ts, b);
    EvalAlwaysOkRegistered(env, ts, b);
  }

  /**
   * A template that uses #hash works on the force-refresh path, where generateKey
   * registers the function, and fails on the normal path, where
   * generateKeyBySpEL does not.
   */
  lemma HashTemplateOnlyEvaluatesWithRegistration(env: Env, ts: seq<Term>, b: seq<Binding>)
    requires |ts| > 0 && ts[0].Literal? && !NoHashCall(ts)
    requires forall i :: 0 <= i < |ts| ==> WellFormed(ts[i])
    ensures GenerateKeyBySpel(env, Render(ts), b).Err?
    ensures GenerateKey(env, Render(ts), b).Ok?
  {
    ParseRender(ts);
    UnregisteredHashFails(env, ts, b);
    var i :| 0 <= i < |ts| && ts[i].HashOf?;
    RenderHasHash(ts, i);
    EvalAlwaysOkRegistered(env, ts, b);
  }

  /** With #hash registered every term has a value, so evaluating a fragment never fails (SpEL's size limits are not modelled). */
  lemma {:induction false} EvalAlwaysOkRegistered(env: Env, ts: seq<Term>, b: seq<Binding>)
    ensures EvalTerms(env, ts, b, true).Ok?
    decreases |ts|
  {
    if ts != [] {
      EvalAlwaysOkRegistered(env, ts[1..], b);
    }
  }

  lemma {:induction false} RenderHasHash(ts: seq<Term>, i: nat)
    requires i < |ts| && ts[i].HashOf?
    ensures '#' in Render(ts)
    decreases |ts|
  {
    if i == 0 {
      assert Render(ts)[0] == '#';
    } else {
      RenderHasHash(ts[1..], i - 1);
      InAfterPrefix(RenderTerm(ts[0]) + " + ", Render(ts[1..]));
      assert Render(ts) == RenderTerm(ts[0]) + " + " + Render(ts[1..]);
    }
  }

  lemma InAfterPrefix(front: string, back: string)
    requires '#' in back
    ensures '#' in front + back
  {
    var k :| 0 <= k < |back| && back[k] == '#';
    assert (front + back)[|front| + k] == '#';
  }

  /** A quoted static key: the force-refresh path writes it without the quotes, the normal path with them. */
  lemma QuotedStaticKeyDiverges(env: Env, x: string, b: seq<Binding>)
    requires '\'' !in x && '#' !in x && !HasPlaceholder("'" + x + "'")
    ensures GenerateKey(env, "'" + x + "'", b) == Ok(x)
    ensures GenerateKeyBySpel(env, "'" + x + "'", b) == Ok("'" + x + "'")
  {
    ParseRender([Literal(x)]);
    assert Render([Literal(x)]) == "'" + x + "'";
    assert '#' !in "'" + x + "'";
    assert [Literal(x)][1..] == [];
    assert EvalTerms(env, [Literal(x)], b, true) == Ok(x + "");
    assert x + "" == x;
  }

  /** `#hash` without the call's `(#` is not a term of the fragment. */
  lemma BareHashUnparsed(rest: string)
    requires rest == [] || rest[0] == ' '
    ensures ParseTerm("#hash" + rest) == None
    ensures ParseTerms("#hash" + rest) == None
  {
    var s := "#hash" + rest;
    assert |s| >= 7 ==> s[..7][5] == ' ';
    assert s[1..] == "hash" + rest;
    IdentLengthOfName("hash", rest);
    assert s[1..5] == "hash";
  }

  /** A chain whose tail after the first " + " does not parse does not parse either. */
  lemma ParseTermsFailsLater(t: Term, tail: string, whole: string)
    requires WellFormed(t)
    requires ParseTerms(tail) == None
    requires whole == RenderTerm(t) + (" + " + tail)
    ensures ParseTerms(whole) == None
  {
    ParseRenderedTerm(t, " + " + tail);
    assert (" + " + tail)[..3] == " + " && (" + " + tail)[3..] == tail;
  }

  lemma BareHashAfterOne(ts: seq<Term>, rest: string)
    requires |ts| == 1 && WellFormed(ts[0])
    requires rest == [] || rest[0] == ' '
    ensures ParseTerms(Render(ts) + (" + #hash" + rest)) == None
  {
    var tail := "#hash" + rest;
    assert " + #hash" == " + " + "#hash";
    ConcatAssoc(" + ", "#hash", rest);
    assert Render(ts) == RenderTerm(ts[0]);
    BareHashUnparsed(rest);
    ParseTermsFailsLater(ts[0], tail, Render(ts) + (" + #hash" + rest));
  }

  lemma BareHashAfterMore(ts: seq<Term>, rest: string)
    requires |ts| > 1 && WellFormed(ts[0])
    requires ParseTerms(Render(ts[1..]) + (" + #hash" + rest)) == None
    ensures ParseTerms(Render(ts) + (" + #hash" + rest)) == None
  {
    RenderAppend(ts, " + #hash" + rest);
    ParseTermsFailsLater(ts[0], Render(ts[1..]) + (" + #hash" + rest), Render(ts) + (" + #hash" + rest));
  }

  lemma RenderAppend(ts: seq<Term>, x: string)
    requires |ts| > 1
    ensures Render(ts) + x == RenderTerm(ts[0]) + (" + " + (Render(ts[1..]) + x))
  {
    var head, tail := RenderTerm(ts[0]), Render(ts[1..]);
    assert Render(ts) == (head + " + ") + tail;
    ConcatAssoc(head + " + ", tail, x);
    ConcatAssoc(head, " + ", tail + x);
  }

  lemma ConcatAssoc(a: string, b: string, c: string)
    ensures (a + b) + c == a + (b + c)
  {
  }

  /** A chain of terms followed by ` + #hash` does not parse as a fragment. */
  lemma {:induction false} BareHashAfter(ts: seq<Term>, rest: string)
    requires |ts| > 0 && forall i :: 0 <= i < |ts| ==> WellFormed(ts[i])
    requires rest == [] || rest[0] == ' '
    ensures ParseTerms(Render(ts) + (" + #hash" + rest)) == None
    decreases |ts|
  {
    if |ts| == 1 {
      BareHashAfterOne(ts, rest);
    } else {
      BareHashAfter(ts[1..], rest);
      BareHashAfterMore(ts, rest);
    }
  }

  /**
   * A bare `#hash`, first in the template or after any chain of terms, is not
   * a variable of the fragment: both key paths hand the whole template to the
   * expression engine, where #hash names the registered function when there is one.
   */
  lemma BareHashIsLeftToSpel(env: Env, ts: seq<Term>, rest: string, b: seq<Binding>)
    requires |ts| > 0 && forall i :: 0 <= i < |ts| ==> WellFormed(ts[i])
    requires rest == [] || rest[0] == ' '
    ensures !IsVarName("hash")
    ensures GenerateKey(env, "#hash" + rest, b) == env.evaluate("#hash" + rest, b, true)
    ensures GenerateKeyBySpel(env, "#hash" + rest, b) == env.evaluate("#hash" + rest, b, false)
    ensures var t := Render(ts) + (" + #hash" + rest);
      GenerateKey(env, t, b) == env.evaluate(t, b, true)
      && GenerateKeyBySpel(env, t, b) == env.evaluate(t, b, false)
  {
    BareHashUnparsed(rest);
    BareHashAfter(ts, rest);
    HasHashSign(Render(ts), rest);
  }

  lemma HasHashSign(front: string, rest: string)
    ensures '#' in "#hash" + rest
    ensures '#' in front + (" + #hash" + rest)
  {
    assert ("#hash" + rest)[0] == '#';
    assert (front + (" + #hash" + rest))[|front| + 3] == '#';
  }
}
