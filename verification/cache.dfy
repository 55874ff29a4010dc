/** The two-tier JSON cache of js/products.js:41-44 and 77-139: the
    volatile `JSON_CACHE` object, the durable `sessionStorage` namespace
    keyed by `prod_json_<DATA_VERSION>_<src>`, and the network fetches the
    loader requests. The network and storage I/O themselves are not
    modelled: a load returns the fetches it starts, and a fetch's
    completion is a separate transition. */
module JsonCache {
  import opened Products
  import opened Text

  /** `DATA_VERSION`, bumped whenever the JSON files change. */
  const DataVersion := "v3"
  const KeyPrefix := "prod_json_"

  /** `SESSION_KEY(src)`. */
  function SessionKey(src: string): string {
    KeyPrefix + DataVersion + "_" + src
  }

  /** The unversioned keys of earlier releases, matched by
      `/^prod_json_(products\.json|pay\.json|free\.json)$/`. */
  predicate IsLegacyKey(k: string) {
    k == KeyPrefix + ProductsSource || k == KeyPrefix + PaySource || k == KeyPrefix + FreeSource
  }

  /** A `sessionStorage` value as `getItem` would return it: JSON text of a
      product array, non-empty text that `JSON.parse` rejects, or "". */
  datatype Stored = Parsed(products: seq<Product>) | Unparsable | Blank {

    /** The stored string is truthy (non-empty). */
    predicate IsNonEmpty() {
      !Blank?
    }
  }

  datatype Cache = Cache(memory: map<string, seq<Product>>, session: map<string, Stored>)

  /** A call of `fetchAndStore(source)`: `idle` marks only the refresh
      scheduled after a session hit; every other call, whether the page waits
      for it (a load that missed) or not (a prefetch), has `idle == false`. */
  datatype FetchRequest = FetchRequest(source: string, idle: bool)

  /** Which tier answered a load. `FromNetwork` means the skeleton is shown
      and the listing waits for the fetch. `SessionThenNetwork` is a session
      hit that was rendered and then replaced by the skeleton, because
      scheduling its refresh threw and control fell through to the network
      branch. */
  datatype Served =
    | FromMemory(products: seq<Product>)
    | FromSession(products: seq<Product>)
    | SessionThenNetwork(products: seq<Product>)
    | FromNetwork

  datatype LoadResult = LoadResult(cache: Cache, served: Served, fetches: seq<FetchRequest>)

  /** The sweep at the top of `loadProductsFromJSON`: every legacy key goes,
      every other entry stays as it was. */
  function RemoveLegacyKeys(session: map<string, Stored>): (r: map<string, Stored>)
    ensures forall k :: k in r <==> k in session && !IsLegacyKey(k)
    ensures forall k :: k in r ==> r[k] == session[k]
  {
    map k | k in session && !IsLegacyKey(k) :: session[k]
  }

  /** The session key holds text that `JSON.parse` accepts. */
  predicate SessionHit(session: map<string, Stored>, source: string) {
    SessionKey(source) in session && session[SessionKey(source)].Parsed?
  }

  /** `loadProductsFromJSON(source)` as intended: sweep legacy keys, then
      memory, then session (promoting a parsed hit into memory and
      scheduling one refresh), then the network. This is what the code does
      when the refresh is scheduled with `setTimeout`. */
  function LoadIntended(c: Cache, source: string): (r: LoadResult)
    ensures r.cache.session == RemoveLegacyKeys(c.session)
    ensures forall s :: s in c.memory ==> s in r.cache.memory && r.cache.memory[s] == c.memory[s]
    ensures r.served.FromMemory? || r.served.FromSession? ==> source in r.cache.memory && r.cache.memory[source] == r.served.products
    ensures !r.served.SessionThenNetwork?
    ensures forall f :: f in r.fetches ==> f.source == source
  {
    var session := RemoveLegacyKeys(c.session);
    if source in c.memory then
      LoadResult(Cache(c.memory, session), FromMemory(c.memory[source]), [])
    else if SessionHit(session, source) then
      var data := session[SessionKey(source)].products;
      LoadResult(Cache(c.memory[source := data], session), FromSession(data), [FetchRequest(source, true)])
    else
      LoadResult(Cache(c.memory, session), FromNetwork, [FetchRequest(source, false)])
  }

  /** `loadProductsFromJSON(source)` as written. The refresh after a session
      hit goes to `requestIdleCallback` when the browser has it, else to
      `setTimeout`, with the number 0 as second argument. The second argument
      of `requestIdleCallback` must be an options dictionary, and Web IDL
      dictionary conversion rejects a number with a TypeError. The empty `catch` swallows it, and
      control reaches the network branch: the promoted data stays in memory
      and in `allProducts`, the skeleton replaces the rendered grid, and a
      foreground fetch starts. Without `requestIdleCallback` the `setTimeout`
      path behaves as intended. */
  function Load(c: Cache, source: string, idleCallbackAvailable: bool): (r: LoadResult)
    ensures r.cache.session == RemoveLegacyKeys(c.session)
    ensures forall s :: s in c.memory ==> s in r.cache.memory && r.cache.memory[s] == c.memory[s]
    ensures !r.served.FromNetwork? ==> source in r.cache.memory && r.cache.memory[source] == r.served.products
    ensures forall f :: f in r.fetches ==> f.source == source
  {
    var session := RemoveLegacyKeys(c.session);
    if idleCallbackAvailable && source !in c.memory && SessionHit(session, source) then
      var data := session[SessionKey(source)].products;
      LoadResult(Cache(c.memory[source := data], session), SessionThenNetwork(data), [FetchRequest(source, false)])
    else
      LoadIntended(c, source)
  }

  /** The cache writes of a successful `fetchAndStore`: memory always, the
      session when `setItem` does not throw (a failed write is swallowed). */
  function Store(c: Cache, source: string, data: seq<Product>, sessionWritable: bool): (r: Cache)
    ensures source in r.memory && r.memory[source] == data
    ensures forall s :: s in c.memory && s != source ==> s in r.memory && r.memory[s] == c.memory[s]
    ensures sessionWritable ==> SessionKey(source) in r.session && r.session[SessionKey(source)] == Parsed(data)
    ensures !sessionWritable ==> r.session == c.session
    ensures forall k :: k in c.session && k != SessionKey(source) ==> k in r.session && r.session[k] == c.session[k]
  {
    Cache(c.memory[source := data],
          if sessionWritable then c.session[SessionKey(source) := Parsed(data)] else c.session)
  }

  /** `prefetchIfNeeded(src)` starts a fetch unless memory holds the source
      or its session entry is a non-empty string. */
  predicate NeedsPrefetch(c: Cache, source: string) {
    !(source in c.memory || (SessionKey(source) in c.session && c.session[SessionKey(source)].IsNonEmpty()))
  }

  function Prefetch(c: Cache, source: string): (r: seq<FetchRequest>)
    ensures r == [] || r == [FetchRequest(source, false)]
    ensures NeedsPrefetch(c, source) ==> r == [FetchRequest(source, false)]
  {
    if NeedsPrefetch(c, source) then [FetchRequest(source, false)] else []
  }

  /** `warmPrefetchOthers()`: prefetch pay.json and free.json unless current. */
  function WarmPrefetchOthers(c: Cache, current: string): seq<FetchRequest> {
    (if current != PaySource then Prefetch(c, PaySource) else [])
      + (if current != FreeSource then Prefetch(c, FreeSource) else [])
  }

  // ---------------------------------------------------------------- keys

  /** Every session key carries `DATA_VERSION` right after the prefix, and
      distinct sources get distinct keys. */
  lemma SessionKeyVersioned(a: string, b: string)
    ensures StartsWith(SessionKey(a), "prod_json_v3_")
    ensures SessionKey(a) == SessionKey(b) ==> a == b
  {
    var p := KeyPrefix + DataVersion + "_";
    assert SessionKey(a) == p + a && SessionKey(b) == p + b;
    if SessionKey(a) == SessionKey(b) {
      assert a == SessionKey(a)[|p|..];
      assert b == SessionKey(b)[|p|..];
    }
  }

  /** No versioned key is a legacy key. */
  lemma SessionKeyNotLegacy(source: string)
    ensures !IsLegacyKey(SessionKey(source))
  {
    var k := SessionKey(source);
    assert k[10] == 'v';
    assert (KeyPrefix + ProductsSource)[10] == 'p';
    assert (KeyPrefix + PaySource)[10] == 'p';
    assert (KeyPrefix + FreeSource)[10] == 'f';
  }

  /** The sweep removes exactly the three legacy keys, keeps every
      versioned entry, and a second sweep changes nothing. */
  lemma SweepKeepsVersionedKeys(session: map<string, Stored>, source: string)
    ensures SessionKey(source) in session ==>
      SessionKey(source) in RemoveLegacyKeys(session) && RemoveLegacyKeys(session)[SessionKey(source)] == session[SessionKey(source)]
    ensures RemoveLegacyKeys(session).Keys == session.Keys - {KeyPrefix + ProductsSource, KeyPrefix + PaySource, KeyPrefix + FreeSource}
    ensures RemoveLegacyKeys(RemoveLegacyKeys(session)) == RemoveLegacyKeys(session)
  {
    SessionKeyNotLegacy(source);
  }

  // ---------------------------------------------------------------- lookup order

  /** A memory hit never consults the session tier or the network: what is
      served, and the memory afterwards, do not depend on the session. */
  lemma MemoryHitIgnoresSession(memory: map<string, seq<Product>>, s1: map<string, Stored>, s2: map<string, Stored>, source: string, idle: bool)
    requires source in memory
    ensures Load(Cache(memory, s1), source, idle).served == FromMemory(memory[source])
    ensures Load(Cache(memory, s1), source, idle).served == Load(Cache(memory, s2), source, idle).served
    ensures Load(Cache(memory, s1), source, idle).cache.memory == memory
    ensures Load(Cache(memory, s1), source, idle).fetches == []
  {
  }

  /** Intended: a session hit is copied into memory, served, and followed by
      one background refresh; the code as written does this exactly when
      `requestIdleCallback` is missing. */
  lemma SessionHitPromoted(c: Cache, source: string)
    requires source !in c.memory
    requires SessionKey(source) in c.session && c.session[SessionKey(source)].Parsed?
    ensures var r := LoadIntended(c, source);
      var data := c.session[SessionKey(source)].products;
      && r.served == FromSession(data)
      && r.cache.memory == c.memory[source := data]
      && r.fetches == [FetchRequest(source, true)]
    ensures Load(c, source, false) == LoadIntended(c, source)
  {
    SessionKeyNotLegacy(source);
  }

  /** As written, where `requestIdleCallback` exists: a session hit is
      promoted into memory but then shown as the skeleton, with a foreground
      fetch and no background refresh, so the load differs from the
      intended one. */
  lemma SessionHitFallsThrough(c: Cache, source: string)
    requires source !in c.memory
    requires SessionKey(source) in c.session && c.session[SessionKey(source)].Parsed?
    ensures var r := Load(c, source, true);
      var data := c.session[SessionKey(source)].products;
      && r.served == SessionThenNetwork(data)
      && r.cache.memory == c.memory[source := data]
      && r.fetches == [FetchRequest(source, false)]
    ensures Load(c, source, true) != LoadIntended(c, source)
  {
    SessionKeyNotLegacy(source);
    assert SessionHit(RemoveLegacyKeys(c.session), source);
  }

  /** Intended: a foreground fetch is issued exactly when both tiers miss
      (an unparsable or empty session entry counts as a miss). */
  lemma ForegroundFetchOnlyOnMiss(c: Cache, source: string)
    ensures FetchRequest(source, false) in LoadIntended(c, source).fetches <==>
      source !in c.memory && !(SessionKey(source) in c.session && c.session[SessionKey(source)].Parsed?)
    ensures LoadIntended(c, source).served.FromNetwork? <==> FetchRequest(source, false) in LoadIntended(c, source).fetches
  {
    SessionKeyNotLegacy(source);
  }

  /** As written: a foreground fetch is issued exactly when memory misses
      and either the session misses too or `requestIdleCallback` exists; the
      skeleton replaces the grid in exactly those loads. */
  lemma ForegroundFetchAsWritten(c: Cache, source: string, idle: bool)
    ensures FetchRequest(source, false) in Load(c, source, idle).fetches <==>
      source !in c.memory && (idle || !(SessionKey(source) in c.session && c.session[SessionKey(source)].Parsed?))
    ensures Load(c, source, idle).served.FromNetwork? || Load(c, source, idle).served.SessionThenNetwork? <==>
      FetchRequest(source, false) in Load(c, source, idle).fetches
  {
    SessionKeyNotLegacy(source);
    ForegroundFetchOnlyOnMiss(c, source);
  }

  /** After a successful fetch the next load of that source is a memory hit
      with the fetched data, whether or not the session write succeeded;
      a later fetch of the same source supersedes an earlier one. */
  lemma LoadAfterStore(c: Cache, source: string, d1: seq<Product>, d2: seq<Product>, w1: bool, w2: bool, idle: bool)
    ensures Load(Store(c, source, d1, w1), source, idle).served == FromMemory(d1)
    ensures Load(Store(Store(c, source, d1, w1), source, d2, w2), source, idle).served == FromMemory(d2)
    ensures w1 && w2 ==> Store(Store(c, source, d1, w1), source, d2, w2).session[SessionKey(source)] == Parsed(d2)
  {
  }

  /** A prefetch issues nothing when either tier holds the source, and
      nothing after a successful fetch of it. */
  lemma PrefetchSkipsCached(c: Cache, source: string, data: seq<Product>, w: bool)
    ensures source in c.memory ==> Prefetch(c, source) == []
    ensures SessionKey(source) in c.session && c.session[SessionKey(source)].Parsed? ==> Prefetch(c, source) == []
    ensures Prefetch(Store(c, source, data, w), source) == []
  {
  }

  /** The warm-up fetches pay.json and free.json exactly when they are not
      current and neither tier holds them: never products.json, never the
      current source. */
  lemma WarmPrefetchTargets(c: Cache, current: string)
    ensures forall f :: f in WarmPrefetchOthers(c, current) ==>
      && (f.source == PaySource || f.source == FreeSource)
      && f.source != current
      && NeedsPrefetch(c, f.source)
      && !f.idle
    ensures current != PaySource && NeedsPrefetch(c, PaySource) ==> FetchRequest(PaySource, false) in WarmPrefetchOthers(c, current)
    ensures current != FreeSource && NeedsPrefetch(c, FreeSource) ==> FetchRequest(FreeSource, false) in WarmPrefetchOthers(c, current)
    ensures |WarmPrefetchOthers(c, current)| <= 2
  {
  }
}
