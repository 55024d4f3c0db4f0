/** The offline cache of the progressive web app (`sw.js`): the browser's cache storage as
    an ordered list of named caches, each mapping a request URL to a stored response,
    and the worker's three event handlers (install, fetch, activate). Network results
    are parameters: each handler receives what the network produced for it. */
module ServiceWorker {
  import opened Wrappers

  /** The current cache version; every other cache name is stale. */
  const CacheName: string := "chat-app-v11"

  /** The application shell fetched and stored on install. */
  const UrlsToCache: seq<string> := [
    "/", "/login", "/chat",
    "/css/chat-style.css", "/css/kawaii-theme.css", "/css/mobile.css",
    "/js/kawaii-theme.js", "/js/pwa.js",
    "/images/default-avatar.svg", "/images/app-icon.svg",
    "/images/app-icon-48.svg", "/images/app-icon-72.svg", "/images/app-icon-96.svg",
    "/images/app-icon-144.svg", "/images/app-icon-180.svg", "/images/app-icon-180.png",
    "/images/app-icon-192.svg", "/images/app-icon-192-enhanced.svg",
    "/manifest.json",
    "https://cdn.jsdelivr.net/npm/bootstrap@5.1.3/dist/css/bootstrap.min.css",
    "https://cdnjs.cloudflare.com/ajax/libs/font-awesome/6.0.0/css/all.min.css",
    "https://cdn.jsdelivr.net/npm/bootstrap@5.1.3/dist/js/bootstrap.bundle.min.js"
  ]

  datatype RedirectMode = Follow | ErrorMode | Manual

  /** A request as the fetch event carries it; `httpMethod` is the normalised method name. */
  datatype Request = Request(httpMethod: string, url: string, redirect: RedirectMode)

  /** The Cache API matches and stores only GET requests: `caches.match` with the default
      `ignoreMethod: false` finds nothing for any other method, and `cache.put` rejects it. */
  predicate IsGet(req: Request) {
    req.httpMethod == "GET"
  }

  datatype ResponseType = Basic | Cors | Opaque | OpaqueRedirect | ErrorResponse

  datatype Response = Response(status: int, kind: ResponseType, redirected: bool, body: string)

  /** What one network fetch produced: a response (possibly none at all), or a rejection. */
  datatype NetworkResult = Responded(response: Option<Response>) | NetworkError

  /** The test the fetch handler applies before storing a network response. */
  predicate Cacheable(r: Option<Response>) {
    r.Some? && r.value.status == 200 && r.value.kind == Basic && !r.value.redirected
  }

  /** `cache.addAll` accepts a response only when it is "ok" (a 2xx status). */
  predicate AddAllAccepts(n: NetworkResult) {
    n.Responded? && n.response.Some? && 200 <= n.response.value.status <= 299
  }

  /** `cache.put` of each URL in turn, later URLs overriding earlier ones. */
  function PutAll(cache: map<string, Response>, urls: seq<string>, rs: seq<Response>): (r: map<string, Response>)
    requires |urls| == |rs|
    ensures forall u :: u in r <==> u in cache || u in urls
    ensures forall u :: u !in urls && u in cache ==> r[u] == cache[u]
    ensures forall u :: u in r ==> r[u] in rs || (u in cache && r[u] == cache[u])
    decreases |urls|
  {
    if urls == [] then cache else PutAll(cache[urls[0] := rs[0]], urls[1..], rs[1..])
  }

  /** Each URL ends up with the response of its last occurrence in the list. */
  lemma {:induction false} PutAllLastWins(cache: map<string, Response>, urls: seq<string>, rs: seq<Response>, i: nat)
    requires |urls| == |rs| && i < |urls|
    requires urls[i] !in urls[i + 1..]
    ensures PutAll(cache, urls, rs)[urls[i]] == rs[i]
    decreases |urls|
  {
    if i > 0 {
      assert urls[1..][i - 1 + 1..] == urls[i + 1..];
      PutAllLastWins(cache[urls[0] := rs[0]], urls[1..], rs[1..], i - 1);
    }
  }

  /** The responses of a batch of fetches that all succeeded. */
  function Responses(fetched: seq<NetworkResult>): (r: seq<Response>)
    requires forall i :: 0 <= i < |fetched| ==> AddAllAccepts(fetched[i])
    ensures |r| == |fetched|
    ensures forall i :: 0 <= i < |fetched| ==>
              fetched[i].Responded? && fetched[i].response.Some? && r[i] == fetched[i].response.value
  {
    seq(|fetched|, i requires 0 <= i < |fetched| && AddAllAccepts(fetched[i]) => fetched[i].response.value)
  }

  predicate Distinct(s: seq<string>) {
    forall i, j :: 0 <= i < j < |s| ==> s[i] != s[j]
  }

  /** `caches.match`: the stored response for `url` in the first cache, in creation order,
      that holds one. */
  function Match(names: seq<string>, stores: map<string, map<string, Response>>, url: string): (r: Option<Response>)
    ensures r.Some? <==> exists i :: 0 <= i < |names| && names[i] in stores && url in stores[names[i]]
    ensures r.Some? ==> exists i :: 0 <= i < |names| && names[i] in stores && url in stores[names[i]]
                                    && r.value == stores[names[i]][url]
                                    && forall j :: 0 <= j < i ==> !(names[j] in stores && url in stores[names[j]])
  {
    if names == [] then None
    else if names[0] in stores && url in stores[names[0]] then Some(stores[names[0]][url])
    else
      var r := Match(names[1..], stores, url);
      assert forall i :: 1 <= i < |names| ==> names[i] == names[1..][i - 1];
      if r.None? then r
      else
        var k :| 0 <= k < |names[1..]| && names[1..][k] in stores && url in stores[names[1..][k]]
                 && r.value == stores[names[1..][k]][url]
                 && forall j :: 0 <= j < k ==> !(names[1..][j] in stores && url in stores[names[1..][j]]);
        assert forall j :: 0 <= j < k + 1 ==> !(names[j] in stores && url in stores[names[j]]);
        r
  }

  /** The names that survive activation: only the current one. */
  function Survivors(names: seq<string>): (r: seq<string>)
    ensures forall x :: x in r ==> x == CacheName
  {
    if names == [] then [] else (if names[0] == CacheName then [CacheName] else []) + Survivors(names[1..])
  }

  lemma {:induction false} SurvivorsOfDistinct(names: seq<string>)
    requires Distinct(names)
    ensures Survivors(names) == if CacheName in names then [CacheName] else []
  {
    if names != [] {
      assert Distinct(names[1..]);
      SurvivorsOfDistinct(names[1..]);
      if names[0] == CacheName {
        assert CacheName !in names[1..];
      }
    }
  }

  /** The names with one name taken out (`caches.delete`). */
  function Without(names: seq<string>, n: string): (r: seq<string>)
    ensures n !in r
    ensures forall x :: x in r <==> x in names && x != n
    ensures Distinct(names) ==> Distinct(r)
  {
    if names == [] then []
    else
      var rest := Without(names[1..], n);
      assert Distinct(names) ==> Distinct(names[1..]) && names[0] !in rest;
      (if names[0] == n then [] else [names[0]]) + rest
  }

  lemma {:induction false} WithoutDistinctSplit(front: seq<string>, n: string, back: seq<string>)
    requires n !in front
    ensures Without(front + [n] + back, n) == front + Without(back, n)
  {
    if front == [] {
      assert [n] + back == [n] + back;
      assert ([n] + back)[1..] == back;
    } else {
      assert (front + [n] + back)[1..] == front[1..] + [n] + back;
      WithoutDistinctSplit(front[1..], n, back);
    }
  }

  lemma {:induction false} WithoutAbsent(s: seq<string>, n: string)
    requires n !in s
    ensures Without(s, n) == s
  {
    if s != [] {
      WithoutAbsent(s[1..], n);
    }
  }

  lemma {:induction false} SurvivorsAppend(s: seq<string>, x: string)
    ensures Survivors(s + [x]) == Survivors(s) + (if x == CacheName then [CacheName] else [])
  {
    if s == [] {
      assert [x][1..] == [];
    } else {
      assert (s + [x])[1..] == s[1..] + [x];
      SurvivorsAppend(s[1..], x);
    }
  }

  class ServiceWorker {
    /** Cache names in creation order (`caches.keys()`). */
    var names: seq<string>
    /** The contents of each cache, from request URL to stored response. */
    var stores: map<string, map<string, Response>>

    ghost predicate Valid()
      reads this
    {
      Distinct(names) && (forall n :: n in names <==> n in stores)
    }

    constructor ()
      ensures Valid() && names == [] && stores == map[]
    {
      names := [];
      stores := map[];
    }

    /** `caches.open(CacheName)`: the current cache, created empty when missing. */
    method Open()
      requires Valid()
      modifies this
      ensures Valid() && CacheName in stores
      ensures names == if CacheName in old(names) then old(names) else old(names) + [CacheName]
      ensures stores == if CacheName in old(stores) then old(stores) else old(stores)[CacheName := map[]]
    {
      if CacheName !in stores {
        names := names + [CacheName];
        stores := stores[CacheName := map[]];
      }
    }

    /** `cache.addAll(urls)` on the current cache after opening it: every response is
        stored, or, when any fetch fails or is not ok, none of them. */
    method OpenAndAddAll(urls: seq<string>, fetched: seq<NetworkResult>) returns (ok: bool)
      requires Valid()
      requires |fetched| == |urls|
      modifies this
      ensures Valid() && CacheName in stores
      ensures names == if CacheName in old(names) then old(names) else old(names) + [CacheName]
      ensures ok <==> forall i :: 0 <= i < |fetched| ==> AddAllAccepts(fetched[i])
      ensures forall n :: n in stores && n != CacheName ==> stores[n] == old(stores)[n]
      ensures var before := if CacheName in old(stores) then old(stores)[CacheName] else map[];
              stores[CacheName] == if ok then PutAll(before, urls, Responses(fetched)) else before
    {
      Open();
      ok := AddAll(urls, fetched);
    }

    /** `addAll` on the opened current cache: all the responses or none. */
    method AddAll(urls: seq<string>, fetched: seq<NetworkResult>) returns (ok: bool)
      requires Valid() && CacheName in stores
      requires |fetched| == |urls|
      modifies this
      ensures Valid() && names == old(names)
      ensures ok <==> forall i :: 0 <= i < |fetched| ==> AddAllAccepts(fetched[i])
      ensures stores == old(stores)[CacheName := if ok then PutAll(old(stores)[CacheName], urls, Responses(fetched))
                                                 else old(stores)[CacheName]]
    {
      ok := forall i :: 0 <= i < |fetched| ==> AddAllAccepts(fetched[i]);
      if ok {
        stores := stores[CacheName := PutAll(stores[CacheName], urls, Responses(fetched))];
      } else {
        assert stores == stores[CacheName := stores[CacheName]];
      }
    }

    /** The install handler: open the current cache and add the application shell. */
    method Install(fetched: seq<NetworkResult>) returns (ok: bool)
      requires Valid()
      requires |fetched| == |UrlsToCache|
      modifies this
      ensures Valid() && CacheName in stores
      ensures names == if CacheName in old(names) then old(names) else old(names) + [CacheName]
      ensures ok <==> forall i :: 0 <= i < |fetched| ==> AddAllAccepts(fetched[i])
      ensures forall n :: n in stores && n != CacheName ==> stores[n] == old(stores)[n]
      ensures var before := if CacheName in old(stores) then old(stores)[CacheName] else map[];
              stores[CacheName] == if ok then PutAll(before, UrlsToCache, Responses(fetched)) else before
    {
      ok := OpenAndAddAll(UrlsToCache, fetched);
    }

    /** The fetch handler. A request whose redirect mode is "manual" goes straight to the
        network. Otherwise the cache is consulted first (a request other than GET never
        matches), and on a miss the network response is returned; when it is `Cacheable`
        the current cache is opened and, for a GET, the response is stored in it (for any
        other method `cache.put` rejects and nothing is stored). */
    method HandleFetch(req: Request, net: NetworkResult) returns (outcome: NetworkResult)
      requires Valid()
      modifies this
      ensures Valid()
      ensures req.redirect == Manual ==> outcome == net && names == old(names) && stores == old(stores)
      ensures req.redirect != Manual && !IsGet(req) ==>
                outcome == net
                && names == (if net.Responded? && Cacheable(net.response) && CacheName !in old(names)
                             then old(names) + [CacheName] else old(names))
                && stores == (if net.Responded? && Cacheable(net.response) && CacheName !in old(stores)
                              then old(stores)[CacheName := map[]] else old(stores))
      ensures req.redirect != Manual && IsGet(req) && Match(old(names), old(stores), req.url).Some? ==>
                outcome == Responded(Match(old(names), old(stores), req.url))
                && names == old(names) && stores == old(stores)
      ensures req.redirect != Manual && IsGet(req) && Match(old(names), old(stores), req.url).None? ==>
                outcome == net
      ensures req.redirect != Manual && IsGet(req) && Match(old(names), old(stores), req.url).None?
              && !(net.Responded? && Cacheable(net.response)) ==>
                names == old(names) && stores == old(stores)
      ensures req.redirect != Manual && IsGet(req) && Match(old(names), old(stores), req.url).None?
              && net.Responded? && Cacheable(net.response) ==>
                names == (if CacheName in old(names) then old(names) else old(names) + [CacheName])
                && var before := if CacheName in old(stores) then old(stores)[CacheName] else map[];
                   stores == old(stores)[CacheName := before[req.url := net.response.value]]
    {
      if req.redirect == Manual {
        return net;
      }
      outcome := net;
      if !IsGet(req) {
        if net.Responded? && Cacheable(net.response) {
          Open();
        }
        return;
      }
      var hit := Match(names, stores, req.url);
      if hit.Some? {
        return Responded(hit);
      }
      if net.Responded? && Cacheable(net.response) {
        var before := if CacheName in stores then stores[CacheName] else map[];
        Open();
        assert stores[CacheName] == before;
        stores := stores[CacheName := before[req.url := net.response.value]];
      }
    }

    /** `caches.delete(n)`. */
    method Delete(n: string)
      requires Valid()
      modifies this
      ensures Valid()
      ensures names == Without(old(names), n)
      ensures stores == old(stores) - {n}
    {
      names := Without(names, n);
      stores := stores - {n};
    }

    /** The activate handler: every cache whose name is not `CacheName` is deleted. */
    method Activate()
      requires Valid()
      modifies this
      ensures Valid()
      ensures names == if CacheName in old(names) then [CacheName] else []
      ensures stores == if CacheName in old(stores) then map[CacheName := old(stores)[CacheName]] else map[]
    {
      var keys := names;
      var i := 0;
      while i < |keys|
        invariant 0 <= i <= |keys|
        invariant Valid() && Distinct(keys)
        invariant names == Survivors(keys[..i]) + keys[i..]
        invariant forall n :: n in stores ==> n in old(stores) && stores[n] == old(stores)[n]
      {
        DeleteIfStale(keys, i);
        i := i + 1;
      }
      assert keys[..i] == keys && keys[i..] == [];
      OnlyCurrentSurvives(keys, old(stores), names, stores);
    }

    /** One turn of the activate loop: the `i`th listed name is deleted unless it is the
        current cache. */
    method DeleteIfStale(keys: seq<string>, i: nat)
      requires Valid() && Distinct(keys) && i < |keys|
      requires names == Survivors(keys[..i]) + keys[i..]
      modifies this
      ensures Valid()
      ensures names == Survivors(keys[..i + 1]) + keys[i + 1..]
      ensures stores == if keys[i] == CacheName then old(stores) else old(stores) - {keys[i]}
    {
      ActivateStep(keys, i);
      if keys[i] != CacheName {
        Delete(keys[i]);
      }
    }
  }

  /** What activation leaves: deleting, from a consistent cache storage, every name other
      than the current one keeps at most the current cache, with its contents intact. */
  lemma OnlyCurrentSurvives(before: seq<string>, storesBefore: map<string, map<string, Response>>,
                            after: seq<string>, storesAfter: map<string, map<string, Response>>)
    requires Distinct(before) && forall n :: n in before <==> n in storesBefore
    requires forall n :: n in after <==> n in storesAfter
    requires after == Survivors(before)
    requires forall n :: n in storesAfter ==> n in storesBefore && storesAfter[n] == storesBefore[n]
    ensures after == if CacheName in before then [CacheName] else []
    ensures storesAfter == if CacheName in storesBefore then map[CacheName := storesBefore[CacheName]] else map[]
  {
    SurvivorsOfDistinct(before);
    if CacheName in storesBefore {
      assert storesAfter.Keys == {CacheName};
    } else {
      assert storesAfter.Keys == {};
    }
  }

  /** One step of activation: deleting a stale name, or keeping the current one,
      moves the boundary between the processed and the unprocessed names. */
  lemma ActivateStep(keys: seq<string>, i: nat)
    requires Distinct(keys) && i < |keys|
    ensures keys[i] == CacheName ==>
              Survivors(keys[..i + 1]) + keys[i + 1..] == Survivors(keys[..i]) + keys[i..]
    ensures keys[i] != CacheName ==>
              Without(Survivors(keys[..i]) + keys[i..], keys[i]) == Survivors(keys[..i + 1]) + keys[i + 1..]
  {
    assert keys[..i + 1] == keys[..i] + [keys[i]];
    assert keys[i..] == [keys[i]] + keys[i + 1..];
    SurvivorsAppend(keys[..i], keys[i]);
    if keys[i] != CacheName {
      StaleStep(keys, i);
    }
  }

  /** A stale name met by the activate loop is in neither the survivors so far nor the
      names still to visit, so deleting it leaves exactly those. */
  lemma StaleStep(keys: seq<string>, i: nat)
    requires Distinct(keys) && i < |keys| && keys[i] != CacheName
    ensures Without(Survivors(keys[..i]) + ([keys[i]] + keys[i + 1..]), keys[i]) == Survivors(keys[..i]) + keys[i + 1..]
  {
    var n, front, rest := keys[i], keys[..i], keys[i + 1..];
    var kept := Survivors(front);
    forall k | 0 <= k < |rest| ensures rest[k] != n {
      assert rest[k] == keys[i + 1 + k];
    }
    WithoutDistinctSplit(kept, n, rest);
    WithoutAbsent(rest, n);
    assert kept + ([n] + rest) == kept + [n] + rest;
  }
}
