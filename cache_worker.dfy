/** The cache worker of sw.js: the install handler that fills the versioned
    cache from the asset manifest, the cache-first fetch handler, and the
    activate handler that sweeps every cache but the current one. */
module CacheWorker {
  import opened Wrappers
  import opened CacheApi

  /** The version tag: the one cache name the worker treats as current. */
  const CACHE_NAME: CacheName := "prayer-tracker-cache-v1"

  /** The asset manifest: the application shell and its third-party dependencies. */
  const MANIFEST: seq<Url> := [
    "./",
    "./index.html",
    "./manifest.json",
    "https://cdn.jsdelivr.net/npm/localforage@1.10.0/dist/localforage.min.js",
    "https://cdn.tailwindcss.com/3.4.3",
    "https://fonts.googleapis.com/css2?family=Inter:wght@400;500;600;700&display=swap"
  ]

  datatype Request = Request(httpMethod: string, url: Url)

  /** What the fetch handler does with a request: leave it to the browser's
      default handling (no `respondWith`), answer with a response, or resolve
      `respondWith` with nothing, which makes the request fail. */
  datatype FetchOutcome = PassThrough | Respond(response: Response) | NoResponse

  datatype FetchResult = FetchResult(storage: Storage, outcome: FetchOutcome, usedNetwork: bool)

  datatype InstallResult = InstallResult(storage: Storage, installed: bool)

  /** The guard on `cache.put` in the fetch handler. */
  predicate Cacheable(r: Response)
  {
    r.status == 200 || r.kind == Opaque
  }

  // ---------------------------------------------------------------------
  // Install
  // ---------------------------------------------------------------------

  /** Open the current cache (creating it), then `addAll` the manifest into it. */
  function InstallStep(s: Storage, manifest: seq<Url>, network: Url -> NetResult): (r: InstallResult)
    ensures r.installed <==> Distinct(manifest) && forall u :: u in manifest ==> AddAllAccepts(network(u))
    ensures r.storage.caches.Keys == s.caches.Keys + {CACHE_NAME}
    ensures forall n :: n in s.caches && n != CACHE_NAME ==> r.storage.caches[n] == s.caches[n]
    ensures WellFormed(s) ==> WellFormed(r.storage)
  {
    var withCache := Opened(s, CACHE_NAME);
    match AddedAll(withCache.caches[CACHE_NAME], manifest, network)
    case Some(c) => InstallResult(Storage(withCache.order, withCache.caches[CACHE_NAME := c]), true)
    case None => InstallResult(withCache, false)
  }

  /** A successful install leaves an entry for every manifest URL in the
      current cache, holding the network's response; caches other than the
      current one are untouched. */
  lemma InstallFillsManifest(s: Storage, manifest: seq<Url>, network: Url -> NetResult)
    requires InstallStep(s, manifest, network).installed
    ensures var r := InstallStep(s, manifest, network).storage;
      var c0 := if CACHE_NAME in s.caches then s.caches[CACHE_NAME] else map[];
      && r.order == Opened(s, CACHE_NAME).order
      && CACHE_NAME in r.caches
      && r.caches[CACHE_NAME].Keys == c0.Keys + (set u | u in manifest)
      && (forall u :: u in manifest ==> r.caches[CACHE_NAME][u] == network(u).response)
      && (forall u :: u in c0 && u !in manifest ==> r.caches[CACHE_NAME][u] == c0[u])
      && (forall n :: n in s.caches && n != CACHE_NAME ==> n in r.caches && r.caches[n] == s.caches[n])
  {
    AddAllAtomic(Opened(s, CACHE_NAME).caches[CACHE_NAME], manifest, network);
  }

  /** With the worker's manifest, which has no duplicates, install succeeds
      exactly when every manifest fetch passes the `addAll` check. */
  lemma InstallSucceedsIff(s: Storage, network: Url -> NetResult)
    ensures InstallStep(s, MANIFEST, network).installed <==> forall u :: u in MANIFEST ==> AddAllAccepts(network(u))
  {
    assert Distinct(MANIFEST);
  }

  /** A failed install adds no entry: the only possible change is that the
      current cache now exists (empty, if it did not exist before). */
  lemma InstallFailureAddsNothing(s: Storage, manifest: seq<Url>, network: Url -> NetResult)
    requires !InstallStep(s, manifest, network).installed
    ensures var r := InstallStep(s, manifest, network).storage;
      && r == Opened(s, CACHE_NAME)
      && forall n, u :: Holds(r.caches, n, u) <==> Holds(s.caches, n, u)
  {
  }

  lemma PutEachIdempotent(c: Cache, urls: seq<Url>, network: Url -> NetResult)
    requires forall u :: u in urls ==> network(u).Ok?
    ensures PutEach(PutEach(c, urls, network), urls, network) == PutEach(c, urls, network)
  {
    var once := PutEach(c, urls, network);
    var twice := PutEach(once, urls, network);
    assert twice.Keys == once.Keys;
    forall u | u in once ensures twice[u] == once[u] {
      if u !in urls {
        assert u in c;
      }
    }
  }

  /** Installing a second time with the same manifest and the same network
      answers changes nothing: no entry is duplicated or lost. */
  lemma InstallIdempotent(s: Storage, manifest: seq<Url>, network: Url -> NetResult)
    ensures var once := InstallStep(s, manifest, network);
      InstallStep(once.storage, manifest, network) == once
  {
    var withCache := Opened(s, CACHE_NAME);
    var once := InstallStep(s, manifest, network);
    var c0 := withCache.caches[CACHE_NAME];
    var added := AddedAll(c0, manifest, network);
    assert Opened(once.storage, CACHE_NAME) == once.storage;
    if added.Some? {
      var c := added.value;
      PutEachIdempotent(c0, manifest, network);
      assert AddedAll(c, manifest, network) == Some(c);
      assert once.storage.caches[CACHE_NAME] == c;
      assert once.storage.caches[CACHE_NAME := c] == once.storage.caches;
    }
  }

  /** Installing into storage without the current cache leaves it with exactly
      one entry per manifest URL. */
  lemma InstallFreshCacheSize(s: Storage, manifest: seq<Url>, network: Url -> NetResult)
    requires CACHE_NAME !in s.caches
    requires InstallStep(s, manifest, network).installed
    ensures |InstallStep(s, manifest, network).storage.caches[CACHE_NAME]| == |manifest|
  {
    AddAllIntoEmpty(manifest, network);
  }

  /** The install handler. */
  method Install(cs: CacheStorage, network: Url -> NetResult) returns (installed: bool)
    requires cs.Valid()
    modifies cs
    ensures cs.Valid()
    ensures InstallResult(cs.View(), installed) == InstallStep(old(cs.View()), MANIFEST, network)
  {
    cs.Open(CACHE_NAME);
    installed := cs.AddAll(CACHE_NAME, MANIFEST, network);
  }

  // ---------------------------------------------------------------------
  // Fetch
  // ---------------------------------------------------------------------

  /** The fetch handler's decision rule: non-GET requests are left alone; a
      hit in any cache is served as it is; a miss goes to the network, and a
      response with status 200 or type "opaque" is put in the current cache
      (which is opened, and so created, whatever the response); a network error
      resolves with nothing. */
  function FetchStep(s: Storage, req: Request, network: NetResult): (r: FetchResult)
    ensures r.usedNetwork <==> req.httpMethod == "GET" && Match(s, req.url).None?
    ensures r.outcome.PassThrough? <==> req.httpMethod != "GET"
    ensures r.outcome.NoResponse? <==> r.usedNetwork && network.NetworkError?
    ensures s.caches.Keys <= r.storage.caches.Keys <= s.caches.Keys + {CACHE_NAME}
    ensures forall n :: n in s.caches && n != CACHE_NAME ==> r.storage.caches[n] == s.caches[n]
  {
    if req.httpMethod != "GET" then FetchResult(s, PassThrough, false)
    else match Match(s, req.url)
      case Some(cached) => FetchResult(s, Respond(cached), false)
      case None =>
        match network
        case NetworkError => FetchResult(s, NoResponse, true)
        case Ok(response) =>
          var withCache := Opened(s, CACHE_NAME);
          var stored := if Cacheable(response) then Stored(withCache, CACHE_NAME, req.url, response) else withCache;
          FetchResult(stored, Respond(response), true)
  }

  /** A request that is not a GET gets no response from the worker, and the
      storage is unchanged. */
  lemma NonGetIgnored(s: Storage, req: Request, network: NetResult)
    requires req.httpMethod != "GET"
    ensures FetchStep(s, req, network) == FetchResult(s, PassThrough, false)
  {
  }

  /** When any cache holds the request, a response one of them holds is served,
      the network is not consulted and the storage is unchanged. */
  lemma HitServesCache(s: Storage, req: Request, network: NetResult, other: NetResult)
    requires WellFormed(s) && req.httpMethod == "GET"
    requires exists n :: Holds(s.caches, n, req.url)
    ensures var r := FetchStep(s, req, network);
      && r.storage == s && !r.usedNetwork
      && r.outcome.Respond?
      && (exists n :: Holds(s.caches, n, req.url) && r.outcome.response == s.caches[n][req.url])
      && r == FetchStep(s, req, other)
  {
    MatchAnyCache(s, req.url);
  }

  /** On a miss, a response with status 200 or type "opaque" is returned and
      stored under the request in the current cache; every other entry and
      every other cache is unchanged. */
  lemma MissStoresCacheable(s: Storage, req: Request, response: Response)
    requires WellFormed(s) && req.httpMethod == "GET"
    requires forall n :: !Holds(s.caches, n, req.url)
    requires Cacheable(response)
    ensures var r := FetchStep(s, req, Ok(response));
      && r.outcome == Respond(response) && r.usedNetwork
      && r.storage.order == Opened(s, CACHE_NAME).order
      && WellFormed(r.storage)
      && r.storage.caches.Keys == s.caches.Keys + {CACHE_NAME}
      && r.storage.caches[CACHE_NAME] ==
           (if CACHE_NAME in s.caches then s.caches[CACHE_NAME] else map[])[req.url := response]
      && forall n :: n in s.caches && n != CACHE_NAME ==> r.storage.caches[n] == s.caches[n]
  {
    MatchAnyCache(s, req.url);
  }

  /** On a miss, a response with another status and a type other than
      "opaque" is returned but stored nowhere. */
  lemma MissSkipsUncacheable(s: Storage, req: Request, response: Response)
    requires WellFormed(s) && req.httpMethod == "GET"
    requires forall n :: !Holds(s.caches, n, req.url)
    requires !Cacheable(response)
    ensures var r := FetchStep(s, req, Ok(response));
      && r.outcome == Respond(response) && r.usedNetwork
      && r.storage == Opened(s, CACHE_NAME)
      && forall n, u :: Holds(r.storage.caches, n, u) <==> Holds(s.caches, n, u)
  {
    MatchAnyCache(s, req.url);
  }

  /** On a miss with a network error the request fails (no response, not an
      empty success) and the storage is unchanged. */
  lemma MissOfflineFails(s: Storage, req: Request)
    requires WellFormed(s) && req.httpMethod == "GET"
    requires forall n :: !Holds(s.caches, n, req.url)
    ensures FetchStep(s, req, NetworkError) == FetchResult(s, NoResponse, true)
  {
    MatchAnyCache(s, req.url);
  }

  /** Every fetch keeps the storage well formed. */
  lemma FetchKeepsWellFormed(s: Storage, req: Request, network: NetResult)
    requires WellFormed(s)
    ensures WellFormed(FetchStep(s, req, network).storage)
  {
  }

  /** The fetch handler. `network` is what the network would answer for the
      request; it is consulted only on a miss. */
  method HandleFetch(cs: CacheStorage, req: Request, network: NetResult) returns (outcome: FetchOutcome, usedNetwork: bool)
    requires cs.Valid()
    modifies cs
    ensures cs.Valid()
    ensures FetchResult(cs.View(), outcome, usedNetwork) == FetchStep(old(cs.View()), req, network)
  {
    usedNetwork := false;
    if req.httpMethod != "GET" {
      return PassThrough, usedNetwork;
    }
    var cached := Match(cs.View(), req.url);
    if cached.Some? {
      return Respond(cached.value), usedNetwork;
    }
    usedNetwork := true;
    if network.NetworkError? {
      return NoResponse, usedNetwork;
    }
    var response := network.response;
    cs.Open(CACHE_NAME);
    if Cacheable(response) {
      cs.Put(CACHE_NAME, req.url, response);
    }
    outcome := Respond(response);
  }

  // ---------------------------------------------------------------------
  // Activate
  // ---------------------------------------------------------------------

  /** The storage after the sweep has visited `names`, in order: every visited
      name other than the current one is deleted. */
  function SweepNames(s: Storage, names: seq<CacheName>): (r: Storage)
    ensures r.caches.Keys == s.caches.Keys - (set n | n in names && n != CACHE_NAME)
    ensures forall n :: n in r.caches ==> r.caches[n] == s.caches[n]
    ensures WellFormed(s) ==> WellFormed(r)
  {
    if names == [] then s
    else
      var prefix := names[..|names| - 1];
      var before := SweepNames(s, prefix);
      var n := names[|names| - 1];
      assert names == prefix + [n];
      assert (set x | x in names && x != CACHE_NAME) ==
        (set x | x in prefix && x != CACHE_NAME) + (if n == CACHE_NAME then {} else {n});
      if n == CACHE_NAME then before else Deleted(before, n)
  }

  /** The reference result of the sweep: the current cache alone, if it exists. */
  function Swept(s: Storage): Storage
  {
    if CACHE_NAME in s.caches then Storage([CACHE_NAME], map[CACHE_NAME := s.caches[CACHE_NAME]])
    else Storage([], map[])
  }

  /** The names of `o` that the sweep of `visited` keeps, in order. */
  function Kept(o: seq<CacheName>, visited: seq<CacheName>): seq<CacheName>
  {
    if o == [] then []
    else (if o[0] !in visited || o[0] == CACHE_NAME then [o[0]] else []) + Kept(o[1..], visited)
  }

  function KeptCaches(caches: map<CacheName, Cache>, visited: seq<CacheName>): map<CacheName, Cache>
  {
    map n | n in caches && (n !in visited || n == CACHE_NAME) :: caches[n]
  }

  lemma {:induction false} KeptVisit(o: seq<CacheName>, visited: seq<CacheName>, n: CacheName)
    ensures Kept(o, visited + [n]) == if n == CACHE_NAME then Kept(o, visited) else Without(Kept(o, visited), n)
  {
    if o != [] {
      KeptVisit(o[1..], visited, n);
      var head := if o[0] !in visited || o[0] == CACHE_NAME then [o[0]] else [];
      if head != [] {
        assert (head + Kept(o[1..], visited))[0] == o[0];
        assert (head + Kept(o[1..], visited))[1..] == Kept(o[1..], visited);
      } else {
        assert head + Kept(o[1..], visited) == Kept(o[1..], visited);
      }
    }
  }

  lemma {:induction false} KeptCovered(o: seq<CacheName>, visited: seq<CacheName>)
    requires Distinct(o)
    requires forall n :: n in o ==> n in visited
    ensures Kept(o, visited) == if CACHE_NAME in o then [CACHE_NAME] else []
  {
    if o != [] {
      assert Distinct(o[1..]) by {
        forall i, j | 0 <= i < j < |o[1..]| ensures o[1..][i] != o[1..][j] {
          assert o[1..][i] == o[i + 1] && o[1..][j] == o[j + 1];
        }
      }
      assert o[0] !in o[1..] by {
        forall i | 0 <= i < |o[1..]| ensures o[1..][i] != o[0] {
          assert o[1..][i] == o[i + 1];
        }
      }
      assert forall n :: n in o <==> n == o[0] || n in o[1..];
      KeptCovered(o[1..], visited);
    }
  }

  lemma {:induction false} KeptNothingVisited(o: seq<CacheName>)
    ensures Kept(o, []) == o
  {
    if o != [] {
      KeptNothingVisited(o[1..]);
      assert o == [o[0]] + o[1..];
    }
  }

  /** The sweep of `names`, in closed form. */
  lemma {:induction false} SweepNamesForm(s: Storage, names: seq<CacheName>)
    ensures SweepNames(s, names) == Storage(Kept(s.order, names), KeptCaches(s.caches, names))
  {
    if names == [] {
      KeptNothingVisited(s.order);
      assert KeptCaches(s.caches, names) == s.caches;
    } else {
      var prefix := names[..|names| - 1];
      var n := names[|names| - 1];
      assert names == prefix + [n];
      SweepNamesForm(s, prefix);
      KeptVisit(s.order, prefix, n);
      var before := SweepNames(s, prefix);
      assert SweepNames(s, names) == if n == CACHE_NAME then before else Deleted(before, n);
      assert Kept(s.order, names) == if n == CACHE_NAME then before.order else Without(before.order, n);
      if n == CACHE_NAME {
        assert KeptCaches(s.caches, names) == KeptCaches(s.caches, prefix);
      } else {
        assert KeptCaches(s.caches, names) == KeptCaches(s.caches, prefix) - {n};
        assert Deleted(before, n) == Storage(Without(before.order, n), before.caches - {n});
      }
    }
  }

  /** Sweeping every existing cache name yields the reference result. */
  lemma SweepAllIsSwept(s: Storage)
    requires WellFormed(s)
    ensures SweepNames(s, s.order) == Swept(s)
  {
    SweepNamesForm(s, s.order);
    KeptCovered(s.order, s.order);
    if CACHE_NAME in s.caches {
      assert KeptCaches(s.caches, s.order) == map[CACHE_NAME := s.caches[CACHE_NAME]];
    } else {
      assert KeptCaches(s.caches, s.order) == map[];
    }
  }

  /** After activation the cache names are the old ones intersected with the
      current name, the current cache's contents are untouched, and the
      storage is well formed. */
  lemma SweptKeepsOnlyCurrent(s: Storage)
    ensures Swept(s).caches.Keys == s.caches.Keys * {CACHE_NAME}
    ensures CACHE_NAME in s.caches ==> Swept(s).caches[CACHE_NAME] == s.caches[CACHE_NAME]
    ensures WellFormed(Swept(s))
  {
  }

  /** Sweeping twice gives the same storage as sweeping once. */
  lemma SweptIdempotent(s: Storage)
    ensures Swept(Swept(s)) == Swept(s)
  {
  }

  /** When the current cache is the only one, activation deletes nothing. */
  lemma SweptOnlyCurrentUnchanged(s: Storage)
    requires WellFormed(s) && s.order == [CACHE_NAME]
    ensures Swept(s) == s
  {
    assert s.caches.Keys == {CACHE_NAME};
  }

  /** The activate handler: every name `caches.keys()` lists that is not on
      the whitelist is deleted. */
  method Activate(cs: CacheStorage)
    requires cs.Valid()
    modifies cs
    ensures cs.Valid() && cs.View() == Swept(old(cs.View()))
  {
    var whitelist := [CACHE_NAME];
    var cacheNames := cs.order;
    for i := 0 to |cacheNames|
      invariant cs.Valid()
      invariant cs.View() == SweepNames(old(cs.View()), cacheNames[..i])
    {
      assert cacheNames[..i + 1][..i] == cacheNames[..i];
      if cacheNames[i] !in whitelist {
        var _ := cs.Delete(cacheNames[i]);
      }
    }
    assert cacheNames[..|cacheNames|] == cacheNames;
    SweepAllIsSwept(old(cs.View()));
  }
}
