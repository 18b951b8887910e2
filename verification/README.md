# Remix on Cloudflare Workers: the request adapter, in Dafny

This project models `packages/remix-cloudflare-workers/worker.ts`, the glue that
lets a Remix server build run as a Cloudflare Worker. For each event it:

- asks the KV asset handler (`getAssetFromKV`) for a static asset, with a cache
  policy it computes from the request path and the build's asset URL
  (`handleAsset`);
- on a miss, renders the request with the Remix request handler, after calling
  the optional `getLoadContext` callback (`createRequestHandler`);
- turns any failure into a 500 response and delivers the response through the
  event's `respondWith` when the event has one, or returns it otherwise
  (`createEventHandler`).

Everything is modelled as pure functions over immutable datatypes:

- `wrappers.dfy` has `Option`, `Error` and `Attempt` (a value or a thrown error).
- `paths.dfy` (module `Paths`) has `split("/")`, `join("/")` and the directory
  computation built from them. It also has a last-slash reference definition
  that the directory is proved against, and `startsWith`.
- `kv_options.dfy` (module `KvOptions`) has the `cacheControl` records, the
  options object as a map from keys to values, and JavaScript's object spread.
- `worker.dfy` (module `Worker`) has the three handlers. The two libraries are
  not modelled: each call to one is given by its outcome (`AssetOutcome`,
  `Attempt<LoadContext>`, `Attempt<Response>`). Every call the worker makes is
  recorded with its arguments in a trace of `Call`s, so statements about what
  was called, with what, and how often can be checked.
- `worker_properties.dfy` (module `WorkerProperties`) has lemmas about which
  collaborators are called, the 500 responses and the cache policy, and
  worked examples.

Environment inputs are parameters:

- `isDev` replaces `process.env.NODE_ENV === "development"`.
- The request is represented by its URL's pathname.
- The build is represented by `build.assets.url`.
- The event is a tagged union. A `FetchEvent` has `respondWith` and no `env`. A
  `ModuleEvent` (`Evt` in `worker.ts`) has an `env` that may be missing at run
  time. The worker tells them apart by probing for a `respondWith` function.

Behaviour worth knowing, all proved:

- The directory prefix test is a raw string prefix test. A request under
  `/buildx/` is long-cached when the assets live under `/build/`.
- An asset URL whose directory is empty makes every production request
  long-cached.
- A caller's `cacheControl` option replaces the computed one as a whole.
- A key that the caller passes with the value `undefined` still overrides,
  because spread copies present keys.

The worker's `mode` option is only forwarded to the Remix handler factory. It
plays no part in the cache or error-body decisions, which both read
`NODE_ENV`.

## Model

| member | source | states |
|---|---|---|
| Paths.Split | packages/remix-cloudflare-workers/worker.ts:76-77 | `split("/")` always yields at least one piece, so dropping the last piece is always defined |
| Paths.Join | packages/remix-cloudflare-workers/worker.ts:76-77 | `join("/")` of no pieces is ""; of one or more pieces it is at least as long as the first piece plus one slash between each two pieces |
| Paths.Dirname | packages/remix-cloudflare-workers/worker.ts:76-77 | `split("/").slice(0, -1).join("/")` is the text before the last slash, and "" when there is no slash |
| Paths.StartsWith | packages/remix-cloudflare-workers/worker.ts:79 | `startsWith` holds exactly when the prefix is no longer than the string and equals its first characters; the empty prefix always matches |
| Paths.JoinSplit | packages/remix-cloudflare-workers/worker.ts:76-77 | joining the pieces of `split("/")` with "/" gives the original string back |
| Paths.SplitJoin | packages/remix-cloudflare-workers/worker.ts:76-77 | splitting a join of one or more slash-free pieces gives those pieces back |
| Paths.SplitPiecesHaveNoSlash | packages/remix-cloudflare-workers/worker.ts:76-77 | no piece produced by `split("/")` contains a slash |
| Paths.SplitSliceJoinIsBeforeLastSlash | packages/remix-cloudflare-workers/worker.ts:76-77 | split, drop the last piece, join equals the text before the last slash, and "" when there is no slash |
| Paths.DirnameAtLastSlash | packages/remix-cloudflare-workers/worker.ts:76-77 | a path whose last slash is at position k has its first k characters as its directory |
| Paths.DirnameIsPrefix | packages/remix-cloudflare-workers/worker.ts:76-77 | the directory of a path is never longer than the path and is a prefix of it |
| KvOptions.Spread | packages/remix-cloudflare-workers/worker.ts:87-92 | the spread has the keys of both objects; a key the overriding object has takes that value whole; every other key keeps the base value |
| Worker.EnvBinding | packages/remix-cloudflare-workers/worker.ts:65-66 | `env?.name` is the binding when the event has an env holding the name, and undefined otherwise (always for a FetchEvent) |
| Worker.IsMiss | packages/remix-cloudflare-workers/worker.ts:94-97 | an outcome is a miss exactly when it is neither a found asset nor another failure |
| Worker.ComputedCachePolicy | packages/remix-cloudflare-workers/worker.ts:63-85 | development gives `{bypassCache: true}`; production gives the one-year policy exactly when the request directory starts with the asset directory, and `{}` otherwise; bypass is requested only in development |
| Worker.LookupOptions | packages/remix-cloudflare-workers/worker.ts:63-92 | the lookup options are the namespace and manifest bindings plus the computed policy; every caller key overrides; every other key keeps its computed value |
| Worker.HandleAsset | packages/remix-cloudflare-workers/worker.ts:57-103 | the lookup is called with the computed options; a found asset is returned unchanged; a not-found or method-not-allowed error becomes null; any other error is rethrown unchanged |
| Worker.HandleRequest | packages/remix-cloudflare-workers/worker.ts:49-54 | `getLoadContext` is called exactly when supplied, at most once and first; render is called at most once, as the last call, with the event's own request and a context that is undefined when no callback exists; the response is render's unchanged; a throwing callback stops before render |
| Worker.HandleEventSteps | packages/remix-cloudflare-workers/worker.ts:120-128 | the asset lookup is always first, with no caller options; render runs only after a miss; a found asset or lookup failure ends the step |
| Worker.HandleEventCallsOfSteps | packages/remix-cloudflare-workers/worker.ts:120-137 | the whole handler calls render, and `getLoadContext`, exactly when the lookup missed and `createRequestHandler`'s handler calls it |
| Worker.ErrorBody | packages/remix-cloudflare-workers/worker.ts:142-152 | in development the body is the error's message when that is truthy, else the error's string form; otherwise it is "Internal Error" |
| Wrappers.StringMessage | packages/remix-cloudflare-workers/worker.ts:145 | a string message is truthy exactly when it is not empty, and shows as itself |
| Worker.ErrorResponse | packages/remix-cloudflare-workers/worker.ts:144-151 | the boundary's response has status 500 and the mode-dependent body |
| Worker.Deliver | packages/remix-cloudflare-workers/worker.ts:131-137 | a FetchEvent's `respondWith` is called once with the response and nothing is returned; any other event gets the response returned and no call |
| Worker.FinalResponse | packages/remix-cloudflare-workers/worker.ts:139-152 | a successful result is the final response unchanged; a thrown error becomes the 500 response |
| Worker.HandleEvent | packages/remix-cloudflare-workers/worker.ts:120-153 | the asset lookup is the first call; a FetchEvent gets exactly one `respondWith` call, last, carrying the independently defined expected response, and nothing is returned; any other event gets that response returned and no `respondWith` call |
| WorkerProperties.DirnameOfAssetFile | packages/remix-cloudflare-workers/worker.ts:77 | the directory of `/build/_assets/app.js` is `/build/_assets` |
| WorkerProperties.DirnameOfAssetUrl | packages/remix-cloudflare-workers/worker.ts:76 | the directory of `/build/_assets` is `/build` |
| WorkerProperties.ProductionPolicyByLastSlash | packages/remix-cloudflare-workers/worker.ts:74-85 | in production the policy is the one-year policy when the text before the request's last slash starts with that of the asset URL, and `{}` otherwise |
| WorkerProperties.BuildAssetGetsLongLivedPolicy | packages/remix-cloudflare-workers/worker.ts:74-92 | in production a request for `/build/_assets/app.js` with asset URL `/build/_assets` is looked up with the one-year policy |
| WorkerProperties.SiblingDirectoryAlsoMatches | packages/remix-cloudflare-workers/worker.ts:79 | the prefix test is on characters: `/buildx/app.js` gets the one-year policy when the asset directory is `/build` |
| WorkerProperties.EmptyAssetDirectoryMatchesEveryRequest | packages/remix-cloudflare-workers/worker.ts:76-85 | an asset URL with no slash after its first character gives every production request the one-year policy |
| WorkerProperties.DevelopmentIgnoresPaths | packages/remix-cloudflare-workers/worker.ts:63-72 | in development the lookup's cacheControl is `{bypassCache: true}` and is the same for any two events and builds, unless the caller supplies one |
| WorkerProperties.CallerCacheControlReplacesWholesale | packages/remix-cloudflare-workers/worker.ts:87-92 | a caller's partial cacheControl replaces the computed one whole and does not gain its bypassCache field |
| WorkerProperties.FoundAssetSkipsRender | packages/remix-cloudflare-workers/worker.ts:120-128 | when the asset is found neither `getLoadContext` nor render is called |
| WorkerProperties.RenderExactlyAfterMiss | packages/remix-cloudflare-workers/worker.ts:120-128 | render is called if and only if the lookup missed and `getLoadContext` was absent or succeeded |
| WorkerProperties.FailuresBecome500 | packages/remix-cloudflare-workers/worker.ts:139-152 | a non-miss lookup failure, a throwing `getLoadContext` or a throwing render ends in status 500, with body "Internal Error" in production |
| WorkerProperties.ProductionBodyRevealsNothing | packages/remix-cloudflare-workers/worker.ts:151 | in production the 500 body is the same whatever was thrown |
| WorkerProperties.DevelopmentBodyOfStringMessage | packages/remix-cloudflare-workers/worker.ts:143-148 | in development an error with a string message shows the message, or its string form when the message is empty |

## Left out

- URL parsing (`new URL(event.request.url)`, worker.ts:75) is left out. The pathname is an input, so an unparsable URL, which would throw and be rethrown by `handleAsset`, is not represented.
- The internals of `getAssetFromKV` and of the Remix request handler (manifest lookup, KV reads, headers, routing, loaders, rendering) are left out. They are library code that is not part of this model, so each call is an outcome value.
- The lookup's outcome is a fixed value. It does not depend on the options the lookup receives, which the model returns for inspection instead.
- Promises, `await` and `waitUntil` are left out. The two steps run strictly one after the other, and the adapter never registers background work.
- `Response` objects and `env` bindings are left out: collaborator responses and bindings are opaque handles. Only the 500 responses the worker builds have a status and body.
- A `respondWith` that throws is left out. In `worker.ts` it would be caught by the boundary and `respondWith` would be called a second time with a 500 response. The model assumes `respondWith` returns normally.
- A thrown `null` or `undefined` is left out. This matters only in development, where reading `e.message` (worker.ts:143-145) would itself throw inside the catch block. In production the worker never reads the thrown value and answers "Internal Error", as the model does for every error. The model's `Error` always has a message (possibly undefined) and a string form.
- Worker.ErrorBody: a non-string message is represented only by its truthiness and the text it shows as; how JavaScript converts it to that text is not modelled.
- The `mode` option is left out, because it is only passed to the Remix handler factory.
