/** The Cloudflare Workers adapter: serve a static asset from KV when the
    lookup finds one, otherwise hand the request to the Remix request
    handler; turn any failure into a 500 response; deliver the response
    through `respondWith` when the event has it and return it otherwise.

    The two collaborators, the KV asset lookup and the Remix handler (with
    the optional `getLoadContext` callback), are not modelled: each call is
    given by the outcome it produces, and the model records every call it
    makes, with its arguments, in a trace. */
module Worker {
  import opened Wrappers
  import opened Paths
  import opened KvOptions

  /** An incoming request; only its URL's pathname is looked at, the rest is an opaque handle. */
  datatype Request = Request(pathname: string, id: nat)

  /** The worker's bindings (`env`), such as `__STATIC_CONTENT`. */
  type Env = map<string, Value>

  /** The two event shapes the handlers accept: a service-worker `FetchEvent`,
      which has `respondWith` and no `env`, and a module-worker `Evt`
      (`{request, waitUntil, env}`), whose `env` may be missing at run time. */
  datatype Event =
    | FetchEvent(request: Request)
    | ModuleEvent(request: Request, env: Option<Env>)

  /** A response: one produced by a collaborator (opaque), or one the worker builds itself. */
  datatype Response = Served(id: nat) | Text(status: nat, body: string)

  /** The server build; only the URL of its asset manifest is looked at. */
  datatype Build = Build(assetsUrl: string)

  /** The value `getLoadContext` returns, or `undefined` when there is no callback. */
  datatype LoadContext = NoContext | Context(id: nat)

  /** What the KV asset lookup does: resolve to a response, throw its
      `NotFoundError` or `MethodNotAllowedError`, or throw anything else. */
  datatype AssetOutcome =
    | Found(response: Response)
    | NotFound
    | MethodNotAllowed
    | LookupFailed(error: Error)

  /** What each collaborator does when the worker calls it for one event. */
  datatype Collaborators = Collaborators(
    lookup: AssetOutcome,
    loadContext: Attempt<LoadContext>,
    render: Attempt<Response>)

  /** How a handler was set up: the mode (`NODE_ENV === "development"`), the
      build, and whether a `getLoadContext` function was supplied. */
  datatype Config = Config(isDev: bool, build: Build, hasLoadContext: bool)

  /** A call the worker makes, with its arguments. */
  datatype Call =
    | LookupAsset(event: Event, options: Options)
    | GetLoadContext(event: Event)
    | RenderRequest(request: Request, context: LoadContext)
    | RespondWith(response: Response)

  /** The result of `handleAsset`: the options the lookup was called with,
      and what `handleAsset` resolves to (`Some` response, `None` for `null`)
      or throws. */
  datatype AssetStep = AssetStep(options: Options, result: Attempt<Option<Response>>)

  /** The calls made by a step, and the response it resolves to or what it throws. */
  datatype Step = Step(calls: seq<Call>, result: Attempt<Response>)

  /** The calls made by the event handler, and the value its promise resolves
      to (`None` for `undefined`). */
  datatype Handled = Handled(calls: seq<Call>, returned: Option<Response>)

  const StaticContentBinding := "__STATIC_CONTENT"
  const StaticContentManifestBinding := "__STATIC_CONTENT_MANIFEST"
  const InternalErrorBody := "Internal Error"

  /** `error instanceof MethodNotAllowedError || error instanceof NotFoundError`:
      the two outcomes `handleAsset` treats as a miss rather than a failure. */
  function IsMiss(outcome: AssetOutcome): (miss: bool)
    ensures miss <==> !outcome.Found? && !outcome.LookupFailed?
  {
    outcome.NotFound? || outcome.MethodNotAllowed?
  }

  predicate CallsRender(calls: seq<Call>)
  {
    exists i :: 0 <= i < |calls| && calls[i].RenderRequest?
  }

  predicate CallsLoadContext(calls: seq<Call>)
  {
    exists i :: 0 <= i < |calls| && calls[i].GetLoadContext?
  }

  predicate CallsRespondWith(calls: seq<Call>)
  {
    exists i :: 0 <= i < |calls| && calls[i].RespondWith?
  }

  /** `event.env?.[name]`: undefined when the event has no `env` or `env` lacks the key. */
  function EnvBinding(event: Event, name: string): (v: Value)
    ensures event.FetchEvent? ==> v == Undefined
    ensures event.ModuleEvent? && event.env.Some? && name in event.env.value ==>
      v == event.env.value[name]
    ensures v != Undefined ==> event.ModuleEvent? && event.env.Some? && name in event.env.value
  {
    match event
    case FetchEvent(_) => Undefined
    case ModuleEvent(_, env) =>
      if env.Some? && name in env.value then env.value[name] else Undefined
  }

  /** The cache policy `handleAsset` computes. In development it is the bypass
      policy whatever the paths. In production it is the long-lived policy when
      the request's directory starts with the asset URL's directory (a raw
      string prefix test) and the empty policy otherwise. */
  function ComputedCachePolicy(isDev: bool, pathname: string, assetsUrl: string): (cc: CacheControl)
    ensures isDev ==> cc == BypassPolicy
    ensures !isDev ==> cc == LongLivedPolicy || cc == EmptyPolicy
    ensures !isDev ==> (cc == LongLivedPolicy <==> StartsWith(Dirname(pathname), Dirname(assetsUrl)))
    ensures cc.bypassCache == Some(true) <==> isDev
  {
    if isDev then BypassPolicy
    else if StartsWith(Dirname(pathname), Dirname(assetsUrl)) then LongLivedPolicy
    else EmptyPolicy
  }

  /** The options object `handleAsset` passes to the lookup: the namespace and
      manifest bindings and the computed cache policy, with the caller's
      options spread over them. */
  function LookupOptions(isDev: bool, event: Event, build: Build, caller: Options): (opts: Options)
    ensures opts.Keys == {AssetNamespaceKey, AssetManifestKey, CacheControlKey} + caller.Keys
    ensures forall k :: k in caller ==> opts[k] == caller[k]
    ensures AssetNamespaceKey !in caller ==>
      opts[AssetNamespaceKey] == EnvBinding(event, StaticContentBinding)
    ensures AssetManifestKey !in caller ==>
      opts[AssetManifestKey] == EnvBinding(event, StaticContentManifestBinding)
    ensures CacheControlKey !in caller ==>
      opts[CacheControlKey] == Policy(ComputedCachePolicy(isDev, event.request.pathname, build.assetsUrl))
  {
    var computed := map[
      AssetNamespaceKey := EnvBinding(event, StaticContentBinding),
      AssetManifestKey := EnvBinding(event, StaticContentManifestBinding),
      CacheControlKey := Policy(ComputedCachePolicy(isDev, event.request.pathname, build.assetsUrl))];
    Spread(computed, caller)
  }

  /** `handleAsset(event, build, options)`: one lookup with the computed
      options; a found asset is returned unchanged, either miss becomes
      `null`, and any other failure is rethrown unchanged. */
  function HandleAsset(isDev: bool, event: Event, build: Build, caller: Options, lookup: AssetOutcome): (step: AssetStep)
    ensures step.options == LookupOptions(isDev, event, build, caller)
    ensures step.result == Ok(None) <==> IsMiss(lookup)
    ensures step.result.Ok? && step.result.value.Some? <==> lookup.Found?
    ensures lookup.Found? ==> step.result.value.value == lookup.response
    ensures step.result.Fail? <==> lookup.LookupFailed?
    ensures lookup.LookupFailed? ==> step.result.error == lookup.error
  {
    var result := match lookup
      case Found(response) => Ok(Some(response))
      case NotFound => Ok(None)
      case MethodNotAllowed => Ok(None)
      case LookupFailed(e) => Fail(e);
    AssetStep(LookupOptions(isDev, event, build, caller), result)
  }

  /** The handler `createRequestHandler` returns, applied to one event: call
      `getLoadContext` only when one was supplied (otherwise the context is
      `undefined`), then render the event's own request with that context.
      A throwing `getLoadContext` stops it before rendering. */
  function HandleRequest(event: Event, hasLoadContext: bool, loadContext: Attempt<LoadContext>, render: Attempt<Response>): (step: Step)
    ensures CallsLoadContext(step.calls) <==> hasLoadContext
    ensures forall i :: 0 <= i < |step.calls| ==>
      step.calls[i] == GetLoadContext(event) || step.calls[i].RenderRequest?
    ensures forall i :: 0 <= i < |step.calls| && step.calls[i].RenderRequest? ==>
      && step.calls[i].request == event.request
      && (!hasLoadContext ==> step.calls[i].context == NoContext)
      && (hasLoadContext ==> loadContext.Ok? && step.calls[i].context == loadContext.value)
    ensures CallsRender(step.calls) <==> !hasLoadContext || loadContext.Ok?
    ensures |step.calls| <= 2
    ensures forall i :: 0 < i < |step.calls| ==> step.calls[i].RenderRequest?
    ensures hasLoadContext ==> |step.calls| >= 1 && step.calls[0] == GetLoadContext(event)
    ensures forall i :: 0 <= i < |step.calls| && step.calls[i].RenderRequest? ==> i == |step.calls| - 1
    ensures CallsRender(step.calls) ==> step.result == render
    ensures !CallsRender(step.calls) ==> step.result == Fail(loadContext.error)
  {
    if !hasLoadContext then
      var calls := [RenderRequest(event.request, NoContext)];
      assert calls[0].RenderRequest?;
      Step(calls, render)
    else match loadContext
      case Fail(e) =>
        var calls := [GetLoadContext(event)];
        assert calls[0].GetLoadContext?;
        Step(calls, Fail(e))
      case Ok(context) =>
        var calls := [GetLoadContext(event), RenderRequest(event.request, context)];
        assert calls[0].GetLoadContext? && calls[1].RenderRequest?;
        Step(calls, render)
  }

  /** The inner `handleEvent`: the asset step first; only when it yields
      `null` is the request rendered. A throw from either step ends it. */
  function HandleEventSteps(config: Config, event: Event, co: Collaborators): (step: Step)
    ensures |step.calls| >= 1
    ensures step.calls[0] == LookupAsset(event, LookupOptions(config.isDev, event, config.build, map[]))
    ensures CallsRender(step.calls) ==> IsMiss(co.lookup)
    ensures !IsMiss(co.lookup) ==> |step.calls| == 1
    ensures forall i :: 0 <= i < |step.calls| ==> !step.calls[i].RespondWith?
    ensures IsMiss(co.lookup) ==>
      step.calls[1..] == HandleRequest(event, config.hasLoadContext, co.loadContext, co.render).calls
    ensures co.lookup.Found? ==> step.result == Ok(co.lookup.response)
    ensures co.lookup.LookupFailed? ==> step.result == Fail(co.lookup.error)
    ensures IsMiss(co.lookup) ==>
      step.result == HandleRequest(event, config.hasLoadContext, co.loadContext, co.render).result
  {
    var asset := HandleAsset(config.isDev, event, config.build, map[], co.lookup);
    var lookupCall := [LookupAsset(event, asset.options)];
    match asset.result
    case Fail(e) => Step(lookupCall, Fail(e))
    case Ok(Some(response)) => Step(lookupCall, Ok(response))
    case Ok(None) =>
      var render := HandleRequest(event, config.hasLoadContext, co.loadContext, co.render);
      Step(lookupCall + render.calls, render.result)
  }

  /** A lookup call in front changes nothing about render or context calls. */
  lemma CallsAfterLookup(lookup: Call, rest: seq<Call>)
    requires lookup.LookupAsset?
    ensures CallsRender([lookup] + rest) <==> CallsRender(rest)
    ensures CallsLoadContext([lookup] + rest) <==> CallsLoadContext(rest)
  {
    var calls := [lookup] + rest;
    assert forall i :: 0 <= i < |rest| ==> calls[i + 1] == rest[i];
    if CallsRender(calls) {
      var i :| 0 <= i < |calls| && calls[i].RenderRequest?;
      assert rest[i - 1].RenderRequest?;
    }
    if CallsLoadContext(calls) {
      var i :| 0 <= i < |calls| && calls[i].GetLoadContext?;
      assert rest[i - 1].GetLoadContext?;
    }
  }

  /** The event handler calls the renderer and `getLoadContext` exactly when
      the lookup missed and `createRequestHandler`'s handler calls them: the
      lookup and the delivery add no such calls. */
  lemma HandleEventCallsOfSteps(config: Config, event: Event, co: Collaborators)
    ensures CallsRender(HandleEvent(config, event, co).calls) <==>
      IsMiss(co.lookup) && CallsRender(HandleRequest(event, config.hasLoadContext, co.loadContext, co.render).calls)
    ensures CallsLoadContext(HandleEvent(config, event, co).calls) <==>
      IsMiss(co.lookup) && CallsLoadContext(HandleRequest(event, config.hasLoadContext, co.loadContext, co.render).calls)
  {
    var steps := HandleEventSteps(config, event, co);
    assert steps.calls == [steps.calls[0]] + steps.calls[1..];
    CallsAfterLookup(steps.calls[0], steps.calls[1..]);
    var delivery := Deliver(event, FinalResponse(config.isDev, steps.result)).calls;
    var calls := HandleEvent(config, event, co).calls;
    assert calls == steps.calls + delivery;
    assert forall i :: 0 <= i < |steps.calls| ==> calls[i] == steps.calls[i];
    assert forall i :: |steps.calls| <= i < |calls| ==> calls[i].RespondWith?;
  }

  /** The body of the 500 response, `e.message || e.toString()` in development:
      the message when it is truthy, else the error's string form; otherwise a
      fixed text that reveals nothing. */
  function ErrorBody(isDev: bool, e: Error): (body: string)
    ensures !isDev ==> body == InternalErrorBody
    ensures isDev && e.message.Some? && e.message.value.truthy ==> body == e.message.value.asString
    ensures isDev && (e.message.None? || !e.message.value.truthy) ==> body == e.asString
  {
    if !isDev then InternalErrorBody
    else if e.message.Some? && e.message.value.truthy then e.message.value.asString
    else e.asString
  }

  /** The response the error boundary builds for a caught error. */
  function ErrorResponse(isDev: bool, e: Error): (r: Response)
    ensures r.Text? && r.status == 500
    ensures r.body == ErrorBody(isDev, e)
  {
    Text(500, ErrorBody(isDev, e))
  }

  /** The local `respondWith`: hand the response to the event's `respondWith`
      and resolve to nothing when the event has one, else resolve to the response. */
  function Deliver(event: Event, response: Response): (h: Handled)
    ensures event.FetchEvent? ==> h.calls == [RespondWith(response)] && h.returned == None
    ensures event.ModuleEvent? ==> h.calls == [] && h.returned == Some(response)
  {
    if event.FetchEvent? then Handled([RespondWith(response)], None)
    else Handled([], Some(response))
  }

  /** The response the event handler ends with: the one the steps produced,
      or the error boundary's 500 response. */
  function FinalResponse(isDev: bool, result: Attempt<Response>): (r: Response)
    ensures result.Ok? ==> r == result.value
    ensures result.Fail? ==> r == Text(500, ErrorBody(isDev, result.error))
  {
    match result
    case Ok(response) => response
    case Fail(e) => ErrorResponse(isDev, e)
  }

  /** The response an event ends with, defined directly from the collaborators'
      outcomes: the found asset; else, after a miss, the rendered response;
      and a 500 response for the first failure on the way. */
  function ExpectedResponse(config: Config, co: Collaborators): Response
  {
    match co.lookup
    case Found(response) => response
    case LookupFailed(e) => Text(500, ErrorBody(config.isDev, e))
    case _ =>
      if config.hasLoadContext && co.loadContext.Fail? then
        Text(500, ErrorBody(config.isDev, co.loadContext.error))
      else match co.render
        case Ok(response) => response
        case Fail(e) => Text(500, ErrorBody(config.isDev, e))
  }

  /** The handler `createEventHandler` returns, applied to one event: it looks
      up the asset first, and ends with the expected response. With a
      `respondWith` on the event it calls it exactly once, last, with that
      response and resolves to nothing; without one it never calls it and
      resolves to the response. */
  function HandleEvent(config: Config, event: Event, co: Collaborators): (h: Handled)
    ensures |h.calls| >= 1
    ensures h.calls[0] == LookupAsset(event, LookupOptions(config.isDev, event, config.build, map[]))
    ensures event.FetchEvent? ==>
      && h.returned == None
      && h.calls[|h.calls| - 1] == RespondWith(ExpectedResponse(config, co))
      && forall i :: 0 <= i < |h.calls| - 1 ==> !h.calls[i].RespondWith?
    ensures event.ModuleEvent? ==>
      h.returned == Some(ExpectedResponse(config, co)) && !CallsRespondWith(h.calls)
  {
    var steps := HandleEventSteps(config, event, co);
    StepsEndInExpected(config, event, co);
    var delivery := Deliver(event, FinalResponse(config.isDev, steps.result));
    StepsThenDelivery(steps.calls, delivery.calls);
    Handled(steps.calls + delivery.calls, delivery.returned)
  }

  /** The steps' result, passed through the error boundary, is the expected response. */
  lemma StepsEndInExpected(config: Config, event: Event, co: Collaborators)
    ensures FinalResponse(config.isDev, HandleEventSteps(config, event, co).result)
         == ExpectedResponse(config, co)
  {
  }

  /** Steps' calls, which never respond, followed by the delivery's calls. */
  lemma StepsThenDelivery(steps: seq<Call>, delivery: seq<Call>)
    requires forall i :: 0 <= i < |steps| ==> !steps[i].RespondWith?
    ensures forall i :: 0 <= i < |steps| ==> !(steps + delivery)[i].RespondWith?
    ensures |delivery| >= 1 ==> (steps + delivery)[|steps + delivery| - 1] == delivery[|delivery| - 1]
    ensures forall i :: |steps| <= i < |steps + delivery| ==> (steps + delivery)[i] == delivery[i - |steps|]
  {
  }
}
