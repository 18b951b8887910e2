/** The options object the worker hands to the KV asset lookup: the cache
    policies it can choose between, and the object spread that merges the
    caller's options over the computed ones. */
module KvOptions {
  import opened Wrappers

  /** One year in seconds: the edge and browser TTL given to build assets. */
  const OneYear: nat := 31536000

  /** A `cacheControl` object. A field that is None is absent from the object. */
  datatype CacheControl = CacheControl(
    bypassCache: Option<bool>,
    edgeTTL: Option<nat>,
    browserTTL: Option<nat>)

  /** `{}`: no field set, so the lookup's own defaults apply. */
  const EmptyPolicy := CacheControl(None, None, None)

  /** `{bypassCache: true}`, used in development. */
  const BypassPolicy := CacheControl(Some(true), None, None)

  /** `{bypassCache: false, edgeTTL: 31536000, browserTTL: 31536000}`. */
  const LongLivedPolicy := CacheControl(Some(false), Some(OneYear), Some(OneYear))

  /** A property value in an options object or in the worker's environment.
      Bindings and whatever else a caller passes are opaque handles. */
  datatype Value = Undefined | Handle(id: nat) | Policy(cacheControl: CacheControl)

  /** A plain JavaScript object: the keys it has and their values. A key that
      is present with the value `undefined` is distinct from a missing key. */
  type Options = map<string, Value>

  const AssetNamespaceKey := "ASSET_NAMESPACE"
  const AssetManifestKey := "ASSET_MANIFEST"
  const CacheControlKey := "cacheControl"

  /** `{...base, ...overrides}`: every key of either object, the value of a
      key taken from `overrides` when it has that key (last one wins), and the
      values kept whole, never merged field by field. */
  function Spread(base: Options, overrides: Options): (r: Options)
    ensures r.Keys == base.Keys + overrides.Keys
    ensures forall k :: k in overrides ==> r[k] == overrides[k]
    ensures forall k :: k in base && k !in overrides ==> r[k] == base[k]
  {
    base + overrides
  }
}
