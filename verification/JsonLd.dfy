/**
 The JSON-LD front end of the object model: how the effective `@context` of
 an export is composed, when an export is signed, and how an import picks
 its Environment and turns an expansion into at most one object. The
 JSON-LD engine (expand, compact), the signature suite, the Environment
 class and the object wrapper are collaborators passed in as functions.
 */
module JsonLd {
  import opened JsValues
  import opened ContextLoader

  /**
   The options object of an export; a property the caller did not set is
   `Undefined`. The source defaults a missing options argument to `{}`.
   */
  datatype ExportOptions = ExportOptions(
    useOriginalContext: Value,
    origContext: Value,
    sign: Value,
    additionalContext: Value)

  /**
   Values the composition reads from code outside this model: what the
   extension-context module's `get()` returns, and the signature library's
   security context URL.
   */
  datatype Collaborators = Collaborators(extensions: Value, securityContextUrl: string)

  /** The `jsonld.documentLoader` function installed at module load: the default Loader's resolver. */
  const DefaultDocumentLoader := Fn("Loader.defaultInstance.makeDocLoader()")

  predicate UsesOriginalContext(o: ExportOptions) {
    Truthy(o.useOriginalContext) && Truthy(o.origContext)
  }

  /** `[].concat(ext)` when `ext` is truthy: an array contributes its elements, anything else itself. */
  function ExtensionEntries(ext: Value): seq<Value> {
    if !Truthy(ext) then []
    else if ext.Arr? then ext.elems
    else [ext]
  }

  /**
   The context list of the composed branch: extension contexts, the security
   URL when signing is requested, the caller's additional context, and last
   the ActivityStreams URL.
   */
  function ComposedList(o: ExportOptions, c: Collaborators): (r: seq<Value>)
    ensures |r| == |ExtensionEntries(c.extensions)| + Bit(Truthy(o.sign)) + Bit(Truthy(o.additionalContext)) + 1
    ensures r[|r| - 1] == Str(ActivityStreamsUrl)
    ensures forall i :: 0 <= i < |ExtensionEntries(c.extensions)| ==> r[i] == ExtensionEntries(c.extensions)[i]
    ensures Truthy(o.sign) ==> r[|ExtensionEntries(c.extensions)|] == Str(c.securityContextUrl)
    ensures Truthy(o.additionalContext) ==>
      r[|ExtensionEntries(c.extensions)| + Bit(Truthy(o.sign))] == o.additionalContext
  {
    var ctx := ExtensionEntries(c.extensions);
    var ctx := if Truthy(o.sign) then ctx + [Str(c.securityContextUrl)] else ctx;
    var ctx := if Truthy(o.additionalContext) then ctx + [o.additionalContext] else ctx;
    ctx + [Str(ActivityStreamsUrl)]
  }

  /** How a `@context` value is read back as a list of entries: a bare entry is a one-entry list. */
  function Entries(v: Value): seq<Value> {
    if v.Arr? then v.elems else [v]
  }

  /** A list of more than one entry stays a list; a single entry is written bare. */
  function Collapse(ctx: seq<Value>): (r: Value)
    requires |ctx| > 0
    ensures |ctx| == 1 ==> r == ctx[0]
    ensures (|ctx| > 1 || !ctx[0].Arr?) ==> Entries(r) == ctx
  {
    if |ctx| > 1 then Arr(ctx) else ctx[0]
  }

  /**
   The `@context` value an export compacts against: the recorded original
   context verbatim when asked for and present, otherwise the composed list,
   which reads back exactly as composed.
   */
  function GetContext(o: ExportOptions, c: Collaborators): (r: Value)
    ensures UsesOriginalContext(o) ==> r == o.origContext
    ensures !UsesOriginalContext(o) ==> Entries(r) == ComposedList(o, c)
    ensures !UsesOriginalContext(o) && |ComposedList(o, c)| == 1 ==> r == Str(ActivityStreamsUrl)
  {
    if UsesOriginalContext(o) then o.origContext
    else Collapse(ComposedList(o, c))
  }

  /** The object `{'@context': v}` handed to the compactor. */
  function ContextObject(v: Value): Value {
    Obj(map["@context" := v])
  }

  /** Number of occurrences of `x` in `s`. */
  function Count(s: seq<Value>, x: Value): nat {
    if |s| == 0 then 0 else Count(s[..|s| - 1], x) + Bit(s[|s| - 1] == x)
  }

  lemma {:induction false} CountConcat(a: seq<Value>, b: seq<Value>, x: Value)
    ensures Count(a + b, x) == Count(a, x) + Count(b, x)
    decreases |b|
  {
    if |b| > 0 {
      assert (a + b)[..|a + b| - 1] == a + b[..|b| - 1];
      CountConcat(a, b[..|b| - 1], x);
    } else {
      assert a + b == a;
    }
  }

  lemma {:induction false} CountPositive(s: seq<Value>, x: Value)
    ensures Count(s, x) > 0 <==> x in s
    decreases |s|
  {
    if |s| > 0 {
      CountPositive(s[..|s| - 1], x);
      assert s == s[..|s| - 1] + [s[|s| - 1]];
    }
  }

  /**
   Every occurrence of the security URL in the composed list is accounted
   for: those among the extensions, one if signing is requested, one if the
   additional context is that URL, one if it equals the base URL.
   */
  lemma SecurityUrlCount(o: ExportOptions, c: Collaborators)
    ensures var sec := Str(c.securityContextUrl);
      Count(ComposedList(o, c), sec) ==
        Count(ExtensionEntries(c.extensions), sec)
        + Bit(Truthy(o.sign))
        + Bit(Truthy(o.additionalContext) && o.additionalContext == sec)
        + Bit(c.securityContextUrl == ActivityStreamsUrl)
  {
    var sec := Str(c.securityContextUrl);
    var ext := ExtensionEntries(c.extensions);
    var s1 := if Truthy(o.sign) then [sec] else [];
    var a1 := if Truthy(o.additionalContext) then [o.additionalContext] else [];
    var base := [Str(ActivityStreamsUrl)];
    assert ComposedList(o, c) == ext + s1 + a1 + base;
    CountConcat(ext + s1 + a1, base, sec);
    CountConcat(ext + s1, a1, sec);
    CountConcat(ext, s1, sec);
    assert Count(s1, sec) == Bit(Truthy(o.sign)) by {
      if Truthy(o.sign) { assert s1[..0] == []; }
    }
    assert Count(a1, sec) == Bit(Truthy(o.additionalContext) && o.additionalContext == sec) by {
      if Truthy(o.additionalContext) { assert a1[..0] == []; }
    }
    assert base[..0] == [];
  }

  /**
   When neither the extensions, the additional context nor the base URL is
   the security URL, it is in the composed context exactly when signing is
   requested (a truthy `sign`).
   */
  lemma SecurityContextIffSign(o: ExportOptions, c: Collaborators)
    requires Str(c.securityContextUrl) !in ExtensionEntries(c.extensions)
    requires o.additionalContext != Str(c.securityContextUrl)
    requires c.securityContextUrl != ActivityStreamsUrl
    requires !UsesOriginalContext(o)
    ensures Str(c.securityContextUrl) in Entries(GetContext(o, c)) <==> Truthy(o.sign)
  {
    var sec := Str(c.securityContextUrl);
    SecurityUrlCount(o, c);
    CountPositive(ExtensionEntries(c.extensions), sec);
    CountPositive(ComposedList(o, c), sec);
  }

  /** `useOriginalContext` without a recorded original context composes the context as usual. */
  lemma MissingOriginalContextComposes(o: ExportOptions, c: Collaborators)
    requires Truthy(o.useOriginalContext) && !Truthy(o.origContext)
    ensures Entries(GetContext(o, c)) == ComposedList(o, c)
    ensures Truthy(GetContext(o, c)) && GetContext(o, c) != o.origContext
  {
  }

  /** With no extensions, no signing and no additional context the `@context` is the bare base URL string. */
  lemma DefaultContextIsBaseUrl(o: ExportOptions, c: Collaborators)
    requires ExtensionEntries(c.extensions) == []
    requires !Truthy(o.sign) && !Truthy(o.additionalContext) && !UsesOriginalContext(o)
    ensures GetContext(o, c) == Str(ActivityStreamsUrl)
  {
  }

  /** Signing happens only for an object-typed `sign`; `typeof null` is "object" too. */
  predicate SignsDocument(o: ExportOptions) {
    TypeOf(o.sign) == "object"
  }

  /**
   The options handed to the signature suite: `{documentLoader, ...sign}`,
   so a `documentLoader` property of `sign` overrides the default one.
   */
  function SignOptions(sign: Value): (r: Value)
    requires TypeOf(sign) == "object"
    ensures r.Obj?
    ensures r.fields.Keys == Spread(sign).Keys + {"documentLoader"}
    ensures forall k :: k in Spread(sign) ==> r.fields[k] == Spread(sign)[k]
    ensures "documentLoader" !in Spread(sign) ==> r.fields["documentLoader"] == DefaultDocumentLoader
  {
    Obj(map["documentLoader" := DefaultDocumentLoader] + Spread(sign))
  }

  /**
   The two collaborators of an export: the JSON-LD compactor (document,
   context object; it resolves contexts through the default loader) and the
   signature suite (document, signing options).
   */
  datatype ExportEngine = ExportEngine(
    compact: (Value, Value) -> Outcome<Value>,
    sign: (Value, Value) -> Outcome<Value>)

  /**
   Compacts against the effective context, then signs the result when `sign`
   is object-typed; a failure of either collaborator is the export's failure.
   */
  function Compact(expanded: Value, o: ExportOptions, c: Collaborators, engine: ExportEngine): (r: Outcome<Value>)
    ensures engine.compact(expanded, ContextObject(GetContext(o, c))).Thrown? ==>
      r == engine.compact(expanded, ContextObject(GetContext(o, c)))
    ensures engine.compact(expanded, ContextObject(GetContext(o, c))).Ok? ==>
      var doc := engine.compact(expanded, ContextObject(GetContext(o, c))).value;
      (SignsDocument(o) ==> r == engine.sign(doc, SignOptions(o.sign)))
      && (!SignsDocument(o) ==> r == Ok(doc))
  {
    match engine.compact(expanded, ContextObject(GetContext(o, c)))
    case Thrown(e) => Thrown(e)
    case Ok(doc) =>
      if TypeOf(o.sign) == "object" then engine.sign(doc, SignOptions(o.sign)) else Ok(doc)
  }

  /**
   A truthy `sign` that is not an object (`true`, a string, a function)
   puts the security URL into the context but leaves the document unsigned.
   */
  lemma TruthyNonObjectSignIsUnsigned(expanded: Value, o: ExportOptions, c: Collaborators, engine: ExportEngine)
    requires Truthy(o.sign) && TypeOf(o.sign) != "object"
    requires !UsesOriginalContext(o)
    ensures Str(c.securityContextUrl) in Entries(GetContext(o, c))
    ensures Compact(expanded, o, c, engine) == engine.compact(expanded, ContextObject(GetContext(o, c)))
  {
  }

  /**
   `sign: null` is falsy, so no security URL is added, yet `typeof null` is
   "object", so the suite is still called, with only the default loader.
   */
  lemma NullSignStillCallsSuite(expanded: Value, o: ExportOptions, c: Collaborators, engine: ExportEngine)
    requires o.sign == Null
    requires !UsesOriginalContext(o)
    requires c.securityContextUrl != ActivityStreamsUrl
    requires Str(c.securityContextUrl) !in ExtensionEntries(c.extensions)
    requires o.additionalContext != Str(c.securityContextUrl)
    ensures Str(c.securityContextUrl) !in Entries(GetContext(o, c))
    ensures Compact(expanded, o, c, engine) ==
      match engine.compact(expanded, ContextObject(GetContext(o, c)))
      case Thrown(e) => Thrown(e)
      case Ok(doc) => engine.sign(doc, Obj(map["documentLoader" := DefaultDocumentLoader]))
  {
    SecurityContextIffSign(o, c);
    assert SignOptions(Null) == Obj(map["documentLoader" := DefaultDocumentLoader]);
  }

  /**
   An object-typed, non-null `sign` both adds the security URL to a composed
   context and has the compacted document signed with its options.
   */
  lemma ObjectSignAddsSecurityUrlAndSigns(expanded: Value, o: ExportOptions, c: Collaborators, engine: ExportEngine)
    requires SignsDocument(o) && o.sign != Null
    requires !UsesOriginalContext(o)
    ensures Str(c.securityContextUrl) in Entries(GetContext(o, c))
    ensures Compact(expanded, o, c, engine) ==
      match engine.compact(expanded, ContextObject(GetContext(o, c)))
      case Thrown(e) => Thrown(e)
      case Ok(doc) => engine.sign(doc, SignOptions(o.sign))
  {
    assert Str(c.securityContextUrl) in ComposedList(o, c);
  }

  /**
   With the original context in use, signing does not add the security URL:
   the document is compacted against the original context as recorded and
   then signed.
   */
  lemma OriginalContextSignedAsIs(expanded: Value, o: ExportOptions, c: Collaborators, engine: ExportEngine)
    requires UsesOriginalContext(o) && SignsDocument(o)
    ensures GetContext(o, c) == o.origContext
    ensures Compact(expanded, o, c, engine) ==
      match engine.compact(expanded, ContextObject(o.origContext))
      case Thrown(e) => Thrown(e)
      case Ok(doc) => engine.sign(doc, SignOptions(o.sign))
  {
  }

  /** What `options.environment` holds: an Environment instance, or any other value. */
  datatype EnvArg<E> = EnvInstance(env: E) | Other(value: Value)

  /** An Environment instance is an object, hence truthy. */
  predicate ArgTruthy<E>(a: EnvArg<E>) {
    match a
    case EnvInstance(_) => true
    case Other(v) => Truthy(v)
  }

  /**
   The collaborators of an import: `new Environment(input)`, the Environment's
   `applyAssumedContext`, its `loader` (reading it, or calling its
   `makeDocLoader`, may throw), the default document loader its resolver
   falls back to, the JSON-LD expander (input, expand context, document
   resolver; free-floating nodes kept) and `models.wrap_object`, which may
   throw. The expander sees the loader only through its resolver.
   */
  datatype ImportEngine<!E, W> = ImportEngine(
    create: Value -> E,
    applyAssumedContext: (E, Value) -> E,
    loaderOf: E -> Outcome<Loader>,
    fallback: string -> Outcome<RemoteDocument>,
    expandContext: Value,
    expand: (Value, Value, string -> Outcome<RemoteDocument>) -> Outcome<seq<Value>>,
    wrap: (Value, E) -> Outcome<W>)

  /**
   `options.environment || new Environment(input)`, replaced by a fresh
   Environment unless it is an Environment instance: the caller's
   environment is reused exactly when it is one.
   */
  function ChooseEnvironment<E, W>(input: Value, environment: EnvArg<E>, engine: ImportEngine<E, W>): (e: E)
    ensures environment.EnvInstance? ==> e == environment.env
    ensures !environment.EnvInstance? ==> e == engine.create(input)
  {
    var candidate := if ArgTruthy(environment) then environment else EnvInstance(engine.create(input));
    if candidate.EnvInstance? then candidate.env else engine.create(input)
  }

  /**
   What an import leaves behind: its result (`null` is None), and the state
   of the Environment object it used, which `applyAssumedContext` updated in
   place. When the caller passed that object in, the caller keeps it.
   */
  datatype Imported<E, W> = Imported(result: Outcome<Option<W>>, environment: E)

  /** The expansion of `input` through the resolver of environment `env`'s loader. */
  function ExpandWith<E, W>(input: Value, env: E, engine: ImportEngine<E, W>): Outcome<seq<Value>> {
    match engine.loaderOf(env)
    case Thrown(e) => Thrown(e)
    case Ok(loader) => engine.expand(input, engine.expandContext, DocLoader(loader, engine.fallback))
  }

  /**
   Imports a document. The environment is updated with the input's
   assumed-context bookkeeping before expansion, so it carries that update
   whatever the outcome. The result is `null` exactly when expansion
   succeeds with no node; otherwise it is the first node wrapped, or the
   first failure among loader, expansion and wrapper.
   */
  function Import<E, W>(input: Value, environment: EnvArg<E>, engine: ImportEngine<E, W>): (r: Imported<E, W>)
    ensures environment.EnvInstance? ==>
      r.environment == engine.applyAssumedContext(environment.env, input)
    ensures !environment.EnvInstance? ==>
      r.environment == engine.applyAssumedContext(engine.create(input), input)
    ensures r.result == Ok(None) <==> ExpandWith(input, r.environment, engine) == Ok([])
    ensures r.result.Ok? ==> ExpandWith(input, r.environment, engine).Ok?
    ensures ExpandWith(input, r.environment, engine).Thrown? ==>
      r.result == Thrown(ExpandWith(input, r.environment, engine).error)
    ensures ExpandWith(input, r.environment, engine).Ok? && |ExpandWith(input, r.environment, engine).value| > 0 ==>
      r.result ==
        match engine.wrap(ExpandWith(input, r.environment, engine).value[0], r.environment)
        case Thrown(e) => Thrown(e)
        case Ok(w) => Ok(Some(w))
  {
    var env := engine.applyAssumedContext(ChooseEnvironment(input, environment, engine), input);
    var result :=
      match ExpandWith(input, env, engine)
      case Thrown(e) => Thrown(e)
      case Ok(expanded) =>
        if |expanded| > 0 then
          match engine.wrap(expanded[0], env)
          case Thrown(e) => Thrown(e)
          case Ok(wrapped) => Ok(Some(wrapped))
        else Ok(None);
    Imported(result, env)
  }

  /**
   Without an Environment instance, an import behaves exactly as if the
   caller had passed the fresh Environment built from the input.
   */
  lemma ImportWithoutEnvironmentUsesFreshOne<E, W>(input: Value, v: Value, engine: ImportEngine<E, W>)
    ensures Import(input, Other(v), engine) == Import(input, EnvInstance(engine.create(input)), engine)
  {
  }

  /**
   With a caller-supplied Environment, a non-empty expansion through that
   environment's loader yields exactly the wrap of its first node in the
   updated environment (or the wrapper's failure).
   */
  lemma ImportWrapsFirstNodeInCallerEnvironment<E, W>(input: Value, env: E, engine: ImportEngine<E, W>)
    requires ExpandWith(input, engine.applyAssumedContext(env, input), engine).Ok?
    requires |ExpandWith(input, engine.applyAssumedContext(env, input), engine).value| > 0
    ensures var updated := engine.applyAssumedContext(env, input);
      var first := ExpandWith(input, updated, engine).value[0];
      && (engine.wrap(first, updated).Ok? ==>
            Import(input, EnvInstance(env), engine).result == Ok(Some(engine.wrap(first, updated).value)))
      && (engine.wrap(first, updated).Thrown? ==>
            Import(input, EnvInstance(env), engine).result == Thrown(engine.wrap(first, updated).error))
  {
  }

  /** Only the first expanded node matters: expansions that agree on it import the same object. */
  lemma ImportKeepsOnlyFirstNode<E, W>(input: Value, environment: EnvArg<E>, engine: ImportEngine<E, W>,
                                       expand2: (Value, Value, string -> Outcome<RemoteDocument>) -> Outcome<seq<Value>>)
    requires var env := Import(input, environment, engine).environment;
      && ExpandWith(input, env, engine).Ok?
      && ExpandWith(input, env, engine.(expand := expand2)).Ok?
      && |ExpandWith(input, env, engine).value| > 0
      && |ExpandWith(input, env, engine.(expand := expand2)).value| > 0
      && ExpandWith(input, env, engine.(expand := expand2)).value[0] == ExpandWith(input, env, engine).value[0]
    ensures Import(input, environment, engine) == Import(input, environment, engine.(expand := expand2))
  {
  }

  /**
   Importing twice with the same Environment object: the second import
   builds on the bookkeeping the first one left, failure or not.
   */
  lemma SuccessiveImportsAccumulate<E, W>(input1: Value, input2: Value, env: E, engine: ImportEngine<E, W>)
    ensures var after1 := Import(input1, EnvInstance(env), engine).environment;
      Import(input2, EnvInstance(after1), engine).environment
      == engine.applyAssumedContext(engine.applyAssumedContext(env, input1), input2)
  {
  }

  /**
   The expander sees the environment's loader only through its resolver:
   two loaders with the same truthy entries (one holding a falsy entry, the
   other none, say) import the same result.
   */
  lemma ImportSeesLoaderOnlyThroughResolver<E, W>(input: Value, environment: EnvArg<E>, engine: ImportEngine<E, W>,
                                                  loaderOf2: E -> Outcome<Loader>)
    requires var env := Import(input, environment, engine).environment;
      && engine.loaderOf(env).Ok? && loaderOf2(env).Ok?
      && Served(engine.loaderOf(env).value) == Served(loaderOf2(env).value)
    ensures Import(input, environment, engine) == Import(input, environment, engine.(loaderOf := loaderOf2))
  {
  }
}
