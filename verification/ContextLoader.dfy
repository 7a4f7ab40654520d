/**
 The context registry: a map from context URL to context document that a
 JSON-LD document loader consults before falling back to the default
 (network or file) loader. The source keeps the map in a prototype-less
 object, so every string is an ordinary key and no inherited name such as
 "toString" is pre-populated; a `map<string, Value>` has the same behaviour.
 */
module ContextLoader {
  import opened JsValues

  const ActivityStreamsUrl := "https://www.w3.org/ns/activitystreams"
  const SecurityV1Url := "https://w3id.org/security/v1"

  datatype Loader = Loader(entries: map<string, Value>)

  /** What a document loader answers: the shape the JSON-LD processor expects. */
  datatype RemoteDocument = RemoteDocument(contextUrl: Value, document: Value, documentUrl: string)

  /** The value stored for `url`; `undefined` when nothing was registered under it. */
  function Get(l: Loader, url: string): (r: Value)
    ensures url in l.entries ==> r == l.entries[url]
    ensures url !in l.entries ==> r == Undefined
  {
    if url in l.entries then l.entries[url] else Undefined
  }

  /**
   Stores `context` under `url`, replacing any earlier value. The source
   returns the loader itself, so calls chain; here the updated loader is
   the result.
   */
  function Register(l: Loader, url: string, context: Value): (r: Loader)
    ensures Get(r, url) == context
    ensures forall u :: u != url ==> Get(r, u) == Get(l, u)
    ensures r.entries.Keys == l.entries.Keys + {url}
  {
    Loader(l.entries[url := context])
  }

  /**
   A freshly constructed loader: the ActivityStreams namespace (`asNs`, the
   vocabulary's `ns` constant) and the hash-less ActivityStreams URL both map
   to the ActivityStreams context, and the security v1 URL maps to the
   security context. Later registrations win, in this order.
   */
  function New(asNs: string, asContext: Value, securityContext: Value): (r: Loader)
    ensures r.entries.Keys == {asNs, ActivityStreamsUrl, SecurityV1Url}
    ensures Get(r, ActivityStreamsUrl) == asContext
    ensures Get(r, SecurityV1Url) == securityContext
    ensures asNs != SecurityV1Url ==> Get(r, asNs) == asContext
    ensures forall u :: u !in {asNs, ActivityStreamsUrl, SecurityV1Url} ==> Get(r, u) == Undefined
  {
    var empty := Loader(map[]);
    Register(Register(Register(empty, asNs, asContext), ActivityStreamsUrl, asContext), SecurityV1Url, securityContext)
  }

  /**
   One call of the resolver `makeDocLoader` returns. The resolver closes over
   the loader object, not a copy of its map, so it sees the map as it is when
   it is called: `l` is the loader's state at that moment. A registered,
   truthy context is answered locally; anything else goes to `fallback`, the
   default document loader, which is not part of this model.
   */
  function LoadDocument(l: Loader, url: string, fallback: string -> Outcome<RemoteDocument>): (r: Outcome<RemoteDocument>)
    ensures Truthy(Get(l, url)) ==> r == Ok(RemoteDocument(Null, Get(l, url), url))
    ensures !Truthy(Get(l, url)) ==> r == fallback(url)
  {
    var context := Get(l, url);
    if Truthy(context) then Ok(RemoteDocument(Null, context, url)) else fallback(url)
  }

  /** The entries the resolver answers locally: the URLs whose stored context is truthy. */
  function Served(l: Loader): (r: map<string, Value>)
    ensures forall url :: url in r <==> Truthy(Get(l, url))
    ensures forall url :: url in r ==> r[url] == Get(l, url)
  {
    map url | url in l.entries && Truthy(l.entries[url]) :: l.entries[url]
  }

  /**
   The resolver `makeDocLoader` returns, as a function of the URL, for the
   loader state `l` that holds while it is used. It is built from the served
   entries alone, so loaders that differ only in falsy entries give the same
   resolver.
   */
  function DocLoader(l: Loader, fallback: string -> Outcome<RemoteDocument>): (r: string -> Outcome<RemoteDocument>)
    ensures forall url :: r(url) == LoadDocument(l, url, fallback)
  {
    var served := Served(l);
    url => if url in served then Ok(RemoteDocument(Null, served[url], url)) else fallback(url)
  }

  /** Registering a falsy context under a fresh URL leaves the resolver exactly as it was. */
  lemma FalsyRegistrationInvisibleToResolver(l: Loader, url: string, context: Value,
                                             fallback: string -> Outcome<RemoteDocument>)
    requires !Truthy(context) && url !in l.entries
    ensures Register(l, url, context) != l
    ensures DocLoader(Register(l, url, context), fallback) == DocLoader(l, fallback)
  {
    assert Served(Register(l, url, context)) == Served(l);
  }

  /** `l.register(u0, c0).register(u1, c1)...`: registrations applied left to right. */
  function RegisterAll(l: Loader, regs: seq<(string, Value)>): Loader
    decreases |regs|
  {
    if |regs| == 0 then l else RegisterAll(Register(l, regs[0].0, regs[0].1), regs[1..])
  }

  /** The value of the last registration for `url` in `regs`, searched from the end. */
  function LastFor(regs: seq<(string, Value)>, url: string): Option<Value>
    decreases |regs|
  {
    if |regs| == 0 then None
    else if regs[|regs| - 1].0 == url then Some(regs[|regs| - 1].1)
    else LastFor(regs[..|regs| - 1], url)
  }

  /** Looking up a URL after registrations gives the value of its last registration, or the old value. */
  function Lookup(l: Loader, regs: seq<(string, Value)>, url: string): Value {
    match LastFor(regs, url)
    case Some(c) => c
    case None => Get(l, url)
  }

  lemma {:induction false} LastForFront(regs: seq<(string, Value)>, url: string)
    requires |regs| > 0
    ensures LastFor(regs, url) ==
      (if LastFor(regs[1..], url).Some? then LastFor(regs[1..], url)
       else if regs[0].0 == url then Some(regs[0].1)
       else None)
    decreases |regs|
  {
    if |regs| == 1 {
      assert regs[1..] == [];
      assert regs[..0] == [];
    } else {
      var init := regs[..|regs| - 1];
      assert init[1..] == regs[1..][..|regs[1..]| - 1];
      assert regs[1..][|regs[1..]| - 1] == regs[|regs| - 1];
      assert init[0] == regs[0];
      LastForFront(init, url);
    }
  }

  /** Chained registration: the last registration of a URL wins and every other URL keeps its value. */
  lemma {:induction false} RegisterAllLastWins(l: Loader, regs: seq<(string, Value)>, url: string)
    ensures Get(RegisterAll(l, regs), url) == Lookup(l, regs, url)
    decreases |regs|
  {
    if |regs| > 0 {
      var l' := Register(l, regs[0].0, regs[0].1);
      RegisterAllLastWins(l', regs[1..], url);
      LastForFront(regs, url);
    }
  }

  /** Registering the same URL twice keeps only the second context. */
  lemma RegisterOverwrites(l: Loader, url: string, c1: Value, c2: Value)
    ensures Register(Register(l, url, c1), url, c2) == Register(l, url, c2)
  {
  }

  /** A context registered after the resolver was made is served by it (when truthy). */
  lemma RegisteredContextIsServed(l: Loader, url: string, context: Value, fallback: string -> Outcome<RemoteDocument>)
    requires Truthy(context)
    ensures LoadDocument(Register(l, url, context), url, fallback) == Ok(RemoteDocument(Null, context, url))
  {
  }

  /** A falsy registration does not shadow the default loader. */
  lemma FalsyContextFallsBack(l: Loader, url: string, context: Value, fallback: string -> Outcome<RemoteDocument>)
    requires !Truthy(context)
    ensures LoadDocument(Register(l, url, context), url, fallback) == fallback(url)
  {
  }

  lemma {:induction false} LastForUnregistered(regs: seq<(string, Value)>, url: string)
    requires forall i :: 0 <= i < |regs| ==> regs[i].0 != url
    ensures LastFor(regs, url) == None
    decreases |regs|
  {
    if |regs| > 0 {
      LastForUnregistered(regs[..|regs| - 1], url);
    }
  }

  /**
   A URL that was neither seeded nor registered in any later call is
   `undefined` in the loader, whatever else was registered.
   */
  lemma {:induction false} NeverRegisteredIsUndefined(asNs: string, asContext: Value, securityContext: Value,
                                   regs: seq<(string, Value)>, url: string)
    requires url !in {asNs, ActivityStreamsUrl, SecurityV1Url}
    requires forall i :: 0 <= i < |regs| ==> regs[i].0 != url
    ensures Get(RegisterAll(New(asNs, asContext, securityContext), regs), url) == Undefined
  {
    RegisterAllLastWins(New(asNs, asContext, securityContext), regs, url);
    LastForUnregistered(regs, url);
  }

  /**
   A resolver consulted after any sequence of registrations answers from the
   last registration of the URL (or its earlier value) when that is truthy,
   and defers to the default loader otherwise.
   */
  lemma LoadDocumentAfterRegistrations(l: Loader, regs: seq<(string, Value)>, url: string,
                                       fallback: string -> Outcome<RemoteDocument>)
    ensures LoadDocument(RegisterAll(l, regs), url, fallback) ==
      if Truthy(Lookup(l, regs, url)) then Ok(RemoteDocument(Null, Lookup(l, regs, url), url))
      else fallback(url)
  {
    RegisterAllLastWins(l, regs, url);
  }
}
