/** Properties of the adapter that relate several of its operations, or hold
    for whole families of inputs.

    The worked examples take their strings as parameters fixed by a
    `requires`, rather than writing the literals in the `ensures`: on a
    literal argument the verifier unfolds `Split` all the way down, which
    costs far more than the proof needs. */
module WorkerProperties {
  import opened Wrappers
  import opened Paths
  import opened KvOptions
  import opened Worker

  /** The directory of a file in a typical build's asset directory. */
  lemma DirnameOfAssetFile(path: string)
    requires path == "/build/_assets/app.js"
    ensures Dirname(path) == "/build/_assets"
  {
    DirnameAtLastSlash(path, 14);
  }

  /** The directory of a typical build's asset URL. */
  lemma DirnameOfAssetUrl(assetsUrl: string)
    requires assetsUrl == "/build/_assets"
    ensures Dirname(assetsUrl) == "/build"
  {
    DirnameAtLastSlash(assetsUrl, 6);
  }

  /** In production, the cache policy depends on the paths only through the
      text before their last slashes: long-lived exactly when the request's
      starts with the asset URL's. */
  lemma ProductionPolicyByLastSlash(pathname: string, assetsUrl: string)
    ensures ComputedCachePolicy(false, pathname, assetsUrl) ==
      if StartsWith(UpToLastSlash(pathname), UpToLastSlash(assetsUrl)) then LongLivedPolicy
      else EmptyPolicy
  {
  }

  /** A request for a file in the build's asset directory, in production,
      is looked up with the long-lived policy. */
  lemma BuildAssetGetsLongLivedPolicy(pathname: string, assetsUrl: string, id: nat, env: Option<Env>)
    requires pathname == "/build/_assets/app.js" && assetsUrl == "/build/_assets"
    ensures var event := ModuleEvent(Request(pathname, id), env);
      HandleAsset(false, event, Build(assetsUrl), map[], NotFound).options[CacheControlKey]
        == Policy(LongLivedPolicy)
  {
    DirnameOfAssetFile(pathname);
    DirnameOfAssetUrl(assetsUrl);
  }

  /** The prefix test is on characters, not path segments: a request in a
      sibling directory whose name extends the asset directory's also gets the
      long-lived policy. */
  lemma SiblingDirectoryAlsoMatches(pathname: string, assetsUrl: string)
    requires pathname == "/buildx/app.js" && assetsUrl == "/build/manifest.js"
    ensures ComputedCachePolicy(false, pathname, assetsUrl) == LongLivedPolicy
  {
    DirnameAtLastSlash(pathname, 7);
    DirnameAtLastSlash(assetsUrl, 6);
  }

  /** An asset URL with no slash after its first character has an empty
      directory, which every request directory starts with. */
  lemma EmptyAssetDirectoryMatchesEveryRequest(pathname: string, assetsUrl: string)
    requires LastSlash(assetsUrl) <= 0
    ensures ComputedCachePolicy(false, pathname, assetsUrl) == LongLivedPolicy
  {
    ProductionPolicyByLastSlash(pathname, assetsUrl);
  }

  /** In development the lookup gets the bypass policy whatever the request
      path and asset URL, unless the caller supplies its own `cacheControl`. */
  lemma DevelopmentIgnoresPaths(e1: Event, e2: Event, b1: Build, b2: Build, caller: Options)
    requires CacheControlKey !in caller
    ensures LookupOptions(true, e1, b1, caller)[CacheControlKey] == Policy(BypassPolicy)
    ensures LookupOptions(true, e1, b1, caller)[CacheControlKey]
         == LookupOptions(true, e2, b2, caller)[CacheControlKey]
  {
  }

  /** A caller's `cacheControl` replaces the computed one as a whole: a
      partial policy does not pick up the computed fields it leaves out. */
  lemma CallerCacheControlReplacesWholesale(isDev: bool, event: Event, build: Build, ttl: nat)
    ensures var partial := CacheControl(None, Some(ttl), None);
      var opts := LookupOptions(isDev, event, build, map[CacheControlKey := Policy(partial)]);
      opts[CacheControlKey] == Policy(partial) && opts[CacheControlKey].cacheControl.bypassCache == None
  {
  }

  /** A found asset is the final response: neither `getLoadContext` nor the
      renderer is called. */
  lemma FoundAssetSkipsRender(config: Config, event: Event, co: Collaborators)
    requires co.lookup.Found?
    ensures var h := HandleEvent(config, event, co);
      !CallsRender(h.calls) && !CallsLoadContext(h.calls)
  {
    HandleEventCallsOfSteps(config, event, co);
  }

  /** The renderer is called only after a miss, and after a miss it is called
      with the event's own request unless `getLoadContext` threw. */
  lemma RenderExactlyAfterMiss(config: Config, event: Event, co: Collaborators)
    ensures var h := HandleEvent(config, event, co);
      CallsRender(h.calls) <==>
        IsMiss(co.lookup) && (!config.hasLoadContext || co.loadContext.Ok?)
  {
    HandleEventCallsOfSteps(config, event, co);
  }

  /** Any failure on the way, whether a lookup failure other than a miss, a
      throwing `getLoadContext`, or a throwing renderer, ends in a 500
      response; in production its body is the fixed "Internal Error". */
  lemma FailuresBecome500(config: Config, co: Collaborators)
    requires
      || co.lookup.LookupFailed?
      || (IsMiss(co.lookup) && config.hasLoadContext && co.loadContext.Fail?)
      || (IsMiss(co.lookup) && (!config.hasLoadContext || co.loadContext.Ok?) && co.render.Fail?)
    ensures ExpectedResponse(config, co).Text?
    ensures ExpectedResponse(config, co).status == 500
    ensures !config.isDev ==> ExpectedResponse(config, co).body == "Internal Error"
  {
  }

  /** In production the body of a 500 response is the same whatever was thrown. */
  lemma ProductionBodyRevealsNothing(e1: Error, e2: Error)
    ensures ErrorBody(false, e1) == ErrorBody(false, e2)
  {
  }

  /** In development an error with a string message shows that message, or
      the error's string form when the message is empty. */
  lemma DevelopmentBodyOfStringMessage(m: string, asString: string)
    ensures ErrorBody(true, Error(Some(StringMessage(m)), asString)) ==
      if |m| > 0 then m else asString
  {
  }
}
