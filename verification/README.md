# ActivityStreams JSON-LD context handling, modelled in Dafny

This project models two pieces of the ActivityStreams 2.0 object library:

- the **context registry** (`Loader`). It maps a context URL to a context
  document. A new loader is seeded with the ActivityStreams and security
  contexts. `register` overwrites an entry and returns the loader. The
  document loader built by `makeDocLoader` answers locally for registered
  URLs whose context is truthy, and defers everything else to the default
  JSON-LD loader.
- the **JSON-LD front end** (`JsonLD`). It composes the effective
  `@context` of an export: either the original context verbatim, or
  extensions, then the security URL, then the additional context, then the
  ActivityStreams URL, with a one-entry list written as a bare entry. It
  signs a compacted export only when `options.sign` is object-typed. An
  import reuses the caller's Environment only if it is an Environment
  instance, and it yields `null` for an empty expansion or the wrapped
  first node otherwise.

Files:

- `JsValues.dfy` holds the JavaScript value semantics the code relies on:
  truthiness, `typeof` (where `typeof null` is `"object"`), and which
  properties an object spread copies.
- `ContextLoader.dfy` holds the registry as a `map<string, Value>` with pure
  operations.
- `JsonLd.dfy` holds context composition, the compact/sign dispatch and the
  import dispatch.

Collaborators are function-valued parameters, because their code is not
part of this model: the JSON-LD expander and compactor, the signature
suite, `new Environment(input)`, `applyAssumedContext`, the Environment's
loader, `models.wrap_object` and the default document loader. The same holds for
values read from modules this model leaves out (`./extcontext`, whose
`get()` gives the extension contexts, and `./jsig`, which holds the security
context document) or from other packages (`vocabs-as` for `as.ns`,
`activitystreams-context` for the ActivityStreams context document, and
`jsonld-signatures` for `SECURITY_CONTEXT_URL`).

The expander receives the Environment loader's resolver, not the loader
itself. `DocLoader` builds that resolver from the truthy entries alone, so
two loaders that differ only in falsy entries give the expander the same
resolver (`FalsyRegistrationInvisibleToResolver`,
`ImportSeesLoaderOnlyThroughResolver`).

The resolver returned by `makeDocLoader` closes over the loader object, not
a copy of its map. `LoadDocument(l, url, fallback)` therefore models one
call of it against the loader's state `l` at call time. So a resolver made
before a `register` call serves the newly registered context
(`RegisteredContextIsServed`).

A lookup answers locally only when the stored value is truthy; a falsy
registration falls through to the default loader (`FalsyContextFallsBack`).
The constructor seeds three keys: the ActivityStreams namespace and the
hash-less ActivityStreams URL share one context, and the security v1 URL
holds the security context. Signing is decided by
`typeof options.sign === 'object'`, and `typeof null` is `"object"`. So
`sign: null` adds no security URL yet still calls the signature suite
(`NullSignStillCallsSuite`).

An import updates the Environment it uses in place, through
`applyAssumedContext`, before it expands anything. `Import` therefore
returns that environment next to its result. A caller who passed an
Environment instance gets the updated one back, and a later import with it
builds on that update (`SuccessiveImportsAccumulate`).

## Model

| member | source | states |
|---|---|---|
| ContextLoader.NeverRegisteredIsUndefined | src/contextloader.js:18-32 | a URL that was neither seeded by the constructor nor passed to any later `register` call reads as `undefined`, whatever else was registered |
| ContextLoader.Get | src/contextloader.js:30-32 | a plain lookup of the map; its meaning over a registration history is given by `NeverRegisteredIsUndefined` (never registered reads `undefined`) and `RegisterAllLastWins` (the last registration wins) |
| ContextLoader.Register | src/contextloader.js:25-28 | after registering, the URL maps to the new context; every other URL keeps its value; the key set grows by exactly that URL |
| ContextLoader.New | src/contextloader.js:18-23 | a new loader has exactly the keys `as.ns`, the ActivityStreams URL and the security v1 URL; the first two map to the ActivityStreams context, the third to the security context; every other URL is undefined |
| ContextLoader.LoadDocument | src/contextloader.js:34-47 | one call of the resolver against the loader's state at call time; `LoadDocumentAfterRegistrations` states what it answers after any registration history, `RegisteredContextIsServed` and `FalsyContextFallsBack` the two branches |
| ContextLoader.LoadDocumentAfterRegistrations | src/contextloader.js:25-47 | after any sequence of registrations, the resolver answers `{contextUrl: null, document, documentUrl: url}` from the last registration of the URL (or its earlier value) when that is truthy, and defers to the default loader otherwise |
| ContextLoader.DocLoader | src/contextloader.js:34-47 | the resolver `makeDocLoader` returns answers every URL exactly as `LoadDocument` does against the loader's state |
| ContextLoader.FalsyRegistrationInvisibleToResolver | src/contextloader.js:25-46 | registering a falsy context under a new URL changes the loader but not the resolver built from it |
| ContextLoader.RegisterAllLastWins | src/contextloader.js:25-28 | for chained `register` calls, a lookup gives the value of the last registration of that URL, or the earlier value if it was never registered (proved against a search from the end) |
| ContextLoader.RegisterOverwrites | src/contextloader.js:25-27 | registering a URL twice is the same as registering only the second context |
| ContextLoader.RegisteredContextIsServed | src/contextloader.js:34-43 | a resolver consulted after a truthy registration serves that context for that URL |
| ContextLoader.FalsyContextFallsBack | src/contextloader.js:34-46 | a falsy registered value does not shadow the default loader |
| JsonLd.ComposedList | src/jsonld.js:18-26 | the composed list holds the extension entries in order, then the security URL iff `sign` is truthy, then the additional context iff truthy, and last the ActivityStreams URL; its length is \|ext\| + [sign] + [additional] + 1 |
| JsonLd.Collapse | src/jsonld.js:27 | a one-entry list is written as the bare entry; reading the result back as entries gives the original list unless that sole entry is itself an array |
| JsonLd.GetContext | src/jsonld.js:14-29 | with `useOriginalContext` and `origContext` both truthy, the result is `origContext` verbatim; otherwise it reads back exactly as the composed list, and is the bare ActivityStreams URL when that list has one entry |
| JsonLd.SecurityUrlCount | src/jsonld.js:19-26 | every occurrence of the security URL in the composed list comes from the extensions, a truthy `sign`, the additional context, or the base URL |
| JsonLd.SecurityContextIffSign | src/jsonld.js:22-23 | when no other source supplies the security URL, it is in the composed context iff `sign` is truthy |
| JsonLd.MissingOriginalContextComposes | src/jsonld.js:15-17 | `useOriginalContext` without an `origContext` uses the composed branch, whose result is truthy |
| JsonLd.DefaultContextIsBaseUrl | src/jsonld.js:18-27 | with no extensions, no signing and no additional context, `@context` is the ActivityStreams URL string, not a list (the default-context export test at test/test.js:78-88) |
| JsonLd.SignOptions | src/jsonld.js:47-50 | the suite's options are `sign`'s own properties plus `documentLoader`, which `sign` may override and which otherwise is the default loader |
| JsonLd.Compact | src/jsonld.js:40-54 | compaction against `GetContext`, then signing for an object-typed `sign`; the export behaviour is stated by `ObjectSignAddsSecurityUrlAndSigns`, `TruthyNonObjectSignIsUnsigned`, `NullSignStillCallsSuite` and `OriginalContextSignedAsIs` |
| JsonLd.ObjectSignAddsSecurityUrlAndSigns | src/jsonld.js:22-50 | a non-null object `sign` puts the security URL into the composed context (lines 22-23) and has the compacted document signed with `{documentLoader, ...sign}` (lines 46-50) |
| JsonLd.OriginalContextSignedAsIs | src/jsonld.js:15-16 | with the original context in use, an object `sign` adds no security URL: the document is compacted against `origContext` as recorded, then signed (src/jsonld.js:41-50) |
| JsonLd.TruthyNonObjectSignIsUnsigned | src/jsonld.js:41-53 | a truthy non-object `sign` adds the security URL to the context but the document is returned unsigned |
| JsonLd.NullSignStillCallsSuite | src/jsonld.js:46-51 | `sign: null` adds no security URL, yet the suite is called with only the default `documentLoader` |
| JsonLd.ChooseEnvironment | src/jsonld.js:64-67 | the caller's environment is used iff it is an Environment instance; otherwise a fresh one is built from the input |
| JsonLd.Import | src/jsonld.js:63-80 | the caller's Environment instance, or else a fresh one built from the input, ends the call with the input's assumed-context bookkeeping applied, whatever the outcome; the result is `null` exactly when expansion through that environment's loader succeeds with no node (expansion goes through the resolver of that environment's loader); a non-empty expansion yields the wrap of its first node in that environment, or the wrapper's failure; a loader or expansion failure is the result |
| JsonLd.ImportWithoutEnvironmentUsesFreshOne | src/jsonld.js:63-80 | an import without an Environment instance (the `as.import(doc)` case) equals an import given the fresh Environment built from the input |
| JsonLd.ImportSeesLoaderOnlyThroughResolver | src/jsonld.js:69-73 | the expansion is handed `environment.loader.makeDocLoader()`, so two loaders with the same truthy entries import the same result |
| JsonLd.ImportKeepsOnlyFirstNode | src/jsonld.js:75-79 | two expansions that agree on their first node import the same object: later nodes are dropped |
| JsonLd.ImportWrapsFirstNodeInCallerEnvironment | src/jsonld.js:68-77 | with a caller-supplied Environment, a non-empty expansion yields the wrap of its first node in the updated environment, or the wrapper's failure |
| JsonLd.SuccessiveImportsAccumulate | src/jsonld.js:64-68 | two imports with the same Environment object apply the bookkeeping of both inputs, in order |

## Left out

- `JsonLD.normalize` (src/jsonld.js:33-38) calls the canonicalizer with `format: 'application/nquads'` as a default that the caller's options override. It is not modelled because it only forwards to the canonicalizer.
- `JsonLD.importFromRDF` (src/jsonld.js:82-85) converts N-Quads and wraps the first node with no Environment and no empty-expansion guard. It is not modelled because the conversion and the wrapper are foreign code.
- `JsonLD.verify` (src/jsonld.js:56-61) parses string input with `JSON.parse` and forwards to the signature library's verifier. It is not modelled, and no verifier appears in the model.
- The JSON-LD expander and compactor and the signature suite are foreign code. They appear only as function parameters.
- The default network/file document loader (src/contextloader.js:10) does I/O. It is a parameter `fallback`, modelled as a function of the URL alone.
- The `Environment` class, `models.wrap_object` and the extension-context registry are not part of this model. Their effects enter as parameters.
- `src/stream.js` is byte-stream framing around `JSON.parse` and `import`.
- Promises and `async`: each call is one sequential step. Errors are the `Thrown` outcome, with the thrown value.
- Compact: the compactor is modelled as a function of the expanded document and the context object. Its implicit use of the default loader's registry at call time is not modelled.
- A `null` options argument makes the source throw a TypeError when it reads the first property. The model's options are always an object, as the `= {}` default provides for `undefined`.
- `instanceof` is modelled as "is an Environment instance". Subclass instances and altered prototypes are not distinguished.
- JavaScript numbers are modelled as reals plus `NaN`. Infinities, `-0` and BigInt are not distinguished; they do not affect truthiness or `typeof` here except `0n`, which is not modelled.
- `Array.prototype.concat` honours `Symbol.isConcatSpreadable` and sparse arrays. The model spreads exactly the values that are arrays.
- JsonLd.Import: `new Environment(input)` and `applyAssumedContext` are modelled as total. An exception they might throw is not modelled. The loader and `wrap_object` may fail, and their failures are modelled.
- JsonLd.Import: the source hands `wrap_object` the Environment object itself (src/jsonld.js:76), so the wrapped result shares it, and a later import with the same `options.environment` updates it in place again (src/jsonld.js:64, 68). The model gives `wrap` a snapshot of the environment, so those later in-place updates are not visible in the wrapped result `W`.
- Context URLs are strings. The source's `this[_map][url]` converts a non-string URL to a property key first (src/contextloader.js:26, 31, 36). The model does not take non-string URLs.
