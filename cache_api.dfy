/** The part of the browser's cache storage that the cache worker uses, over
    plain values: the `Cache` interface (`put`, `addAll`) and the
    `CacheStorage` interface (`open`, `match`, `keys`, `delete`) of section 5.4
    and section 5.5 of the W3C Service Workers specification. */
module CacheApi {
  import opened Wrappers

  type Url = string
  type CacheName = string

  /** The `type` attribute of a Fetch response. */
  datatype ResponseType = Basic | Cors | Default | Error | Opaque | OpaqueRedirect

  /** A response as a value: its status, its type and a snapshot of its body. */
  datatype Response = Response(status: int, kind: ResponseType, body: string)

  /** What the network yields for one request: a response of any status, or a
      network error (the rejected `fetch` promise). */
  datatype NetResult = Ok(response: Response) | NetworkError

  /** One named cache: request URL to stored response. */
  type Cache = map<Url, Response>

  /** The origin's cache storage: the cache names in creation order, and the
      contents of each named cache. */
  datatype Storage = Storage(order: seq<CacheName>, caches: map<CacheName, Cache>)

  predicate Distinct<T(==)>(s: seq<T>)
  {
    forall i, j :: 0 <= i < j < |s| ==> s[i] != s[j]
  }

  /** Every cache name occurs once in the creation order, and the order lists
      exactly the existing caches. */
  ghost predicate WellFormed(s: Storage)
  {
    Distinct(s.order) && forall n :: n in s.caches <==> n in s.order
  }

  predicate Holds(caches: map<CacheName, Cache>, name: CacheName, url: Url)
  {
    name in caches && url in caches[name]
  }

  /** `CacheStorage.match`: the response under `url` in the first cache, in the
      given order, that holds one. */
  function MatchIn(names: seq<CacheName>, caches: map<CacheName, Cache>, url: Url): (r: Option<Response>)
    ensures r.Some? <==> exists i :: 0 <= i < |names| && Holds(caches, names[i], url)
    ensures r.Some? ==>
      exists i :: 0 <= i < |names| && Holds(caches, names[i], url) && r.value == caches[names[i]][url] &&
        forall j :: 0 <= j < i ==> !Holds(caches, names[j], url)
  {
    if names == [] then None
    else if Holds(caches, names[0], url) then
      assert Holds(caches, names[0], url);
      Some(caches[names[0]][url])
    else
      var r := MatchIn(names[1..], caches, url);
      assert forall i :: 1 <= i < |names| ==> names[i] == names[1..][i - 1];
      if r.Some? then
        var k :| 0 <= k < |names[1..]| && Holds(caches, names[1..][k], url) && r.value == caches[names[1..][k]][url] &&
          forall j :: 0 <= j < k ==> !Holds(caches, names[1..][j], url);
        assert Holds(caches, names[k + 1], url);
        r
      else
        r
  }

  /** `caches.match` over the whole storage: whatever it returns is the entry
      some existing cache holds for the URL. */
  function Match(s: Storage, url: Url): (r: Option<Response>)
    ensures r.Some? ==> exists n :: Holds(s.caches, n, url) && r.value == s.caches[n][url]
  {
    MatchIn(s.order, s.caches, url)
  }

  /** In well-formed storage, `match` finds an entry exactly when some named
      cache holds the URL, and what it finds is held by such a cache. */
  lemma MatchAnyCache(s: Storage, url: Url)
    requires WellFormed(s)
    ensures Match(s, url).Some? <==> exists n :: Holds(s.caches, n, url)
    ensures Match(s, url).Some? ==> exists n :: Holds(s.caches, n, url) && Match(s, url).value == s.caches[n][url]
  {
    if n :| Holds(s.caches, n, url) {
      var i :| 0 <= i < |s.order| && s.order[i] == n;
      assert Holds(s.caches, s.order[i], url);
    }
  }

  /** `CacheStorage.open`: the named cache, created empty (and placed last in
      the order) when it does not exist yet. */
  function Opened(s: Storage, name: CacheName): (r: Storage)
    ensures name in r.caches && r.caches.Keys == s.caches.Keys + {name}
    ensures forall n :: n in s.caches ==> r.caches[n] == s.caches[n]
    ensures name !in s.caches ==> r.caches[name] == map[]
    ensures name in s.caches ==> r == s
    ensures name !in s.caches ==> r.order == s.order + [name]
    ensures WellFormed(s) ==> WellFormed(r)
  {
    if name in s.caches then s
    else Storage(s.order + [name], s.caches[name := map[]])
  }

  /** `Cache.put`: the entry for `url` in cache `name` becomes `response`. */
  function Stored(s: Storage, name: CacheName, url: Url, response: Response): (r: Storage)
    requires name in s.caches
    ensures r.caches.Keys == s.caches.Keys && r.order == s.order
    ensures Holds(r.caches, name, url) && r.caches[name][url] == response
    ensures forall u :: u != url && u in s.caches[name] ==> u in r.caches[name] && r.caches[name][u] == s.caches[name][u]
    ensures forall u :: u != url && u in r.caches[name] ==> u in s.caches[name]
    ensures forall n :: n in s.caches && n != name ==> r.caches[n] == s.caches[n]
    ensures WellFormed(s) ==> WellFormed(r)
  {
    Storage(s.order, s.caches[name := s.caches[name][url := response]])
  }

  /** The order with every occurrence of `name` removed. */
  function Without(names: seq<CacheName>, name: CacheName): (r: seq<CacheName>)
    ensures forall n :: n in r <==> n in names && n != name
    ensures Distinct(names) ==> Distinct(r)
  {
    if names == [] then []
    else if names[0] == name then Without(names[1..], name)
    else
      var rest := Without(names[1..], name);
      assert Distinct(names) ==> names[0] !in names[1..];
      [names[0]] + rest
  }

  /** Removing a name keeps the remaining names in their relative order: it
      acts on each part of the order separately. */
  lemma {:induction false} WithoutAppend(a: seq<CacheName>, b: seq<CacheName>, name: CacheName)
    ensures Without(a + b, name) == Without(a, name) + Without(b, name)
  {
    if a != [] {
      assert (a + b)[1..] == a[1..] + b;
      WithoutAppend(a[1..], b, name);
    } else {
      assert a + b == b;
    }
  }

  /** A name that is not in the order leaves it as it is. */
  lemma {:induction false} WithoutAbsent(names: seq<CacheName>, name: CacheName)
    requires name !in names
    ensures Without(names, name) == names
  {
    if names != [] {
      WithoutAbsent(names[1..], name);
      assert names == [names[0]] + names[1..];
    }
  }

  /** `CacheStorage.delete`: the named cache is gone, from the contents and
      from the order. */
  function Deleted(s: Storage, name: CacheName): (r: Storage)
    ensures r.caches.Keys == s.caches.Keys - {name}
    ensures forall n :: n in r.caches ==> r.caches[n] == s.caches[n]
    ensures r.order == Without(s.order, name)
    ensures WellFormed(s) ==> WellFormed(r)
  {
    Storage(Without(s.order, name), s.caches - {name})
  }

  /** The `addAll` fetch check: a network error, a response of type "error",
      a status that is not an ok status (200 to 299) and status 206 all reject. */
  predicate AddAllAccepts(r: NetResult)
  {
    r.Ok? && r.response.kind != Error && 200 <= r.response.status <= 299 && r.response.status != 206
  }

  /** The cache after putting, in order, the network's response for each URL. */
  function PutEach(c: Cache, urls: seq<Url>, network: Url -> NetResult): (r: Cache)
    requires forall u :: u in urls ==> network(u).Ok?
    ensures r.Keys == c.Keys + set u | u in urls
    ensures forall u :: u in urls ==> r[u] == network(u).response
    ensures forall u :: u in c && u !in urls ==> r[u] == c[u]
    decreases urls
  {
    if urls == [] then c
    else
      var r := PutEach(c[urls[0] := network(urls[0]).response], urls[1..], network);
      assert forall u :: u in urls <==> u == urls[0] || u in urls[1..];
      r
  }

  /** `Cache.addAll`: all or nothing. `None` is the rejected promise: some
      fetch failed the check, or two requests are the same (InvalidStateError). */
  function AddedAll(c: Cache, urls: seq<Url>, network: Url -> NetResult): Option<Cache>
  {
    if Distinct(urls) && forall u :: u in urls ==> AddAllAccepts(network(u)) then
      Some(PutEach(c, urls, network))
    else
      None
  }

  /** `addAll` succeeds exactly when every fetch passes and there are no
      duplicates; then every URL holds its response and nothing else changes,
      and otherwise the cache is left as it was. */
  lemma AddAllAtomic(c: Cache, urls: seq<Url>, network: Url -> NetResult)
    ensures AddedAll(c, urls, network).Some? <==>
      Distinct(urls) && forall u :: u in urls ==> AddAllAccepts(network(u))
    ensures AddedAll(c, urls, network).Some? ==>
      var r := AddedAll(c, urls, network).value;
      && r.Keys == c.Keys + (set u | u in urls)
      && (forall u :: u in urls ==> r[u] == network(u).response)
      && (forall u :: u in c && u !in urls ==> r[u] == c[u])
  {
  }

  lemma {:induction false} DistinctCard(urls: seq<Url>)
    requires Distinct(urls)
    ensures |set u | u in urls| == |urls|
  {
    if urls != [] {
      var rest := urls[1..];
      assert Distinct(rest) by {
        forall i, j | 0 <= i < j < |rest| ensures rest[i] != rest[j] {
          assert rest[i] == urls[i + 1] && rest[j] == urls[j + 1];
        }
      }
      DistinctCard(rest);
      assert urls[0] !in rest by {
        forall i | 0 <= i < |rest| ensures rest[i] != urls[0] {
          assert rest[i] == urls[i + 1];
        }
      }
      assert (set u | u in urls) == {urls[0]} + (set u | u in rest) by {
        assert urls == [urls[0]] + rest;
      }
    }
  }

  /** `addAll` into an empty cache yields exactly one entry per URL. */
  lemma AddAllIntoEmpty(urls: seq<Url>, network: Url -> NetResult)
    requires AddedAll(map[], urls, network).Some?
    ensures |AddedAll(map[], urls, network).value| == |urls|
  {
    DistinctCard(urls);
  }

  /** The browser's cache storage for the worker's origin, updated in place. */
  class CacheStorage {
    var order: seq<CacheName>
    var caches: map<CacheName, Cache>

    function View(): Storage
      reads this
    {
      Storage(order, caches)
    }

    ghost predicate Valid()
      reads this
    {
      WellFormed(View())
    }

    constructor ()
      ensures Valid() && View() == Storage([], map[])
    {
      order := [];
      caches := map[];
    }

    /** `caches.open(name)`. */
    method Open(name: CacheName)
      requires Valid()
      modifies this
      ensures Valid() && View() == Opened(old(View()), name)
    {
      if name !in caches {
        order := order + [name];
        caches := caches[name := map[]];
      }
    }

    /** `cache.put(request, response)` on the opened cache `name`. */
    method Put(name: CacheName, url: Url, response: Response)
      requires Valid() && name in caches
      modifies this
      ensures Valid() && View() == Stored(old(View()), name, url, response)
    {
      caches := caches[name := caches[name][url := response]];
    }

    /** `caches.delete(name)`: resolves with whether the cache existed. */
    method Delete(name: CacheName) returns (existed: bool)
      requires Valid()
      modifies this
      ensures Valid() && View() == Deleted(old(View()), name)
      ensures existed == (name in old(caches))
    {
      existed := name in caches;
      order := Without(order, name);
      caches := caches - {name};
    }

    /** `cache.addAll(urls)` on the opened cache `name`: fetch every URL, and
        put them all only when every fetch passed. */
    method AddAll(name: CacheName, urls: seq<Url>, network: Url -> NetResult) returns (ok: bool)
      requires Valid() && name in caches
      modifies this
      ensures Valid() && order == old(order)
      ensures ok == AddedAll(old(caches)[name], urls, network).Some?
      ensures caches == if ok then old(caches)[name := AddedAll(old(caches)[name], urls, network).value]
                        else old(caches)
    {
      var i := 0;
      while i < |urls|
        invariant 0 <= i <= |urls|
        invariant forall j :: 0 <= j < i ==> AddAllAccepts(network(urls[j]))
      {
        if !AddAllAccepts(network(urls[i])) {
          return false;
        }
        i := i + 1;
      }
      if !Distinct(urls) {
        return false;
      }
      var c := caches[name];
      ghost var c0 := c;
      for k := 0 to |urls|
        invariant PutEach(c, urls[k..], network) == PutEach(c0, urls, network)
      {
        assert urls[k..][1..] == urls[k + 1..];
        c := c[urls[k] := network(urls[k]).response];
      }
      caches := caches[name := c];
      ok := true;
    }
  }
}
