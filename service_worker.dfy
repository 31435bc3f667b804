/**
 * The offline layer of `service-worker.js`. Requests are sorted into three kinds: not intercepted,
 * media (served from the cache first) and everything else (served stale while revalidating).
 * The browser's cache storage is an ordered list of named caches, each a map from URL to
 * response. Lookups search the caches in order. Installing fills the current cache; activating
 * deletes every other one.
 */
module ServiceWorker {
  import opened Wrappers
  import opened Text

  const CacheName := "biblia-iasd-media-v14"
  const AssistantHost := "generativelanguage.googleapis.com"

  /** `STATIC_ASSETS`, compared with request URLs exactly as written. */
  const StaticAssets: seq<string> := [
    "./",
    "./index.html",
    "./manifest.json",
    "https://cdn.tailwindcss.com",
    "https://fonts.googleapis.com/css2?family=Cinzel:wght@400;700&family=Merriweather:ital,wght@0,300;0,400;0,700;1,300&display=swap",
    "https://www.transparenttextures.com/patterns/black-linen.png",
    "https://cdn-icons-png.flaticon.com/512/3004/3004458.png",
    "https://images.unsplash.com/photo-1614027164847-1b28cfe1df60?q=80&w=1920&auto=format&fit=crop",
    "https://images.unsplash.com/photo-1504052434569-70ad5836ab65?q=80&w=1920&auto=format&fit=crop",
    "https://images.unsplash.com/photo-1507434965515-61970f2bd7c6?q=80&w=1080&h=1920&auto=format&fit=crop",
    "https://images.unsplash.com/photo-1457369804613-52c61a468e7d?q=80&w=1280&h=720&auto=format&fit=crop",
    "https://cdn.pixabay.com/audio/2022/10/23/audio_17df663552.mp3",
    "https://assets.mixkit.co/active_storage/sfx/2000/2000-preview.mp3",
    "https://assets.mixkit.co/active_storage/sfx/2955/2955-preview.mp3",
    "https://assets.mixkit.co/active_storage/sfx/2578/2578-preview.mp3",
    "https://assets.mixkit.co/active_storage/sfx/995/995-preview.mp3",
    "https://archive.org/download/hino-43-castelo-forte-hinario-adventista/Hino%2043%20-%20Castelo%20Forte%20-%20Hin%C3%A1rio%20Adventista.mp3",
    "https://archive.org/download/Hino16SantoSantoSanto/Hino%2016%20-%20Santo%21%20Santo%21%20Santo%21.mp3",
    "https://archive.org/download/Hino34GrandiosoEsTu/Hino%2034%20-%20Grandioso%20%C3%A9s%20Tu.mp3",
    "https://cdn.pixabay.com/audio/2022/06/17/audio_651a5477d6.mp3",
    "https://archive.org/download/harpa-crista-hino-545-porque-ele-vive/Harpa%20Crist%C3%A3%20-%20Hino%20545%20-%20Porque%20Ele%20Vive.mp3",
    "https://archive.org/download/HarpaCristaHino291ARudeCruz/Harpa%20Crist%C3%A3%20-%20Hino%20291%20-%20A%20Rude%20Cruz.mp3"
  ]

  datatype Request = Request(httpMethod: string, url: string)
  datatype ResponseType = Basic | Cors | Opaque | Error
  datatype Response = Response(status: int, kind: ResponseType, body: string)

  datatype Strategy = NotIntercepted | CacheFirst | StaleWhileRevalidate

  /** What the page receives: the browser's own handling, a response, or a network error. */
  datatype Outcome = NotHandled | Served(response: Response) | NetworkError

  predicate EndsWith(s: string, suffix: string) {
    |suffix| <= |s| && s[|s| - |suffix|..] == suffix
  }

  predicate IsMedia(url: string) {
    EndsWith(url, ".mp3") || EndsWith(url, ".png") || EndsWith(url, ".jpg") || url in StaticAssets
  }

  function Classify(req: Request): (s: Strategy)
    ensures s == NotIntercepted <==> req.httpMethod != "GET" || Contains(req.url, AssistantHost)
    ensures s == CacheFirst <==> req.httpMethod == "GET" && !Contains(req.url, AssistantHost) && IsMedia(req.url)
  {
    if req.httpMethod != "GET" || Contains(req.url, AssistantHost) then NotIntercepted
    else if IsMedia(req.url) then CacheFirst
    else StaleWhileRevalidate
  }

  /** A media response fetched from the network is kept only when it is a 200 from a CORS fetch. */
  predicate MediaCacheable(r: Response) {
    r.status == 200 && r.kind == Cors
  }

  /** Any other response is kept only when it is a 200 from the app's own origin. */
  predicate PageCacheable(r: Response) {
    r.status == 200 && r.kind == Basic
  }

  /** `cache.addAll` accepts only responses whose status is in the 200 range. */
  predicate Ok(r: Response) {
    200 <= r.status <= 299
  }

  /** No response is cacheable under both rules, and a same-origin image is never kept by the fetch handler. */
  lemma CacheRulesDisjoint(r: Response)
    ensures !(MediaCacheable(r) && PageCacheable(r))
    ensures r.kind == Basic ==> !MediaCacheable(r)
    ensures MediaCacheable(r) || PageCacheable(r) ==> Ok(r)
  {
  }

  /** Requests to the text generator's host are left to the browser whatever they ask for. */
  lemma AssistantNeverIntercepted(verb: string, path: string)
    ensures Classify(Request(verb, "https://" + AssistantHost + path)) == NotIntercepted
  {
    var url := "https://" + AssistantHost + path;
    assert OccursAt(url, AssistantHost, 8) by {
      assert url[8..8 + |AssistantHost|] == AssistantHost;
    }
  }

  /** Every sound and image listed is media; the three relative entries are not audio or images by name. */
  lemma StaticAssetsAreMedia(url: string)
    requires url in StaticAssets
    ensures Classify(Request("GET", url)) != StaleWhileRevalidate
  {
  }


  datatype NamedCache = NamedCache(name: string, entries: map<string, Response>)

  /** `caches.keys()`. */
  function Names(cs: seq<NamedCache>): (ns: seq<string>)
    ensures |ns| == |cs| && forall i :: 0 <= i < |cs| ==> ns[i] == cs[i].name
  {
    if cs == [] then [] else [cs[0].name] + Names(cs[1..])
  }

  predicate DistinctNames(cs: seq<NamedCache>) {
    forall i, j :: 0 <= i < j < |cs| ==> cs[i].name != cs[j].name
  }

  /** `caches.match`: the response stored under `url` in the first cache that has one. */
  function MatchIn(cs: seq<NamedCache>, url: string): (r: Option<Response>)
    ensures r.None? <==> forall i :: 0 <= i < |cs| ==> url !in cs[i].entries
  {
    if cs == [] then None
    else if url in cs[0].entries then Some(cs[0].entries[url])
    else MatchIn(cs[1..], url)
  }

  /** The lookup answers from the earliest cache holding the URL. */
  lemma {:induction false} MatchFirst(cs: seq<NamedCache>, url: string, i: nat)
    requires i < |cs| && url in cs[i].entries
    requires forall j :: 0 <= j < i ==> url !in cs[j].entries
    ensures MatchIn(cs, url) == Some(cs[i].entries[url])
  {
    if i > 0 {
      MatchFirst(cs[1..], url, i - 1);
    }
  }

  /** The entries of the first cache called `name`, or none when there is no such cache. */
  function EntriesOf(cs: seq<NamedCache>, name: string): (m: map<string, Response>)
    ensures name !in Names(cs) ==> m == map[]
  {
    if cs == [] then map[]
    else if cs[0].name == name then cs[0].entries
    else EntriesOf(cs[1..], name)
  }

  /** `caches.open(name)` followed by `cache.put(url, r)`: the cache is created at the end if missing. */
  function PutIn(cs: seq<NamedCache>, name: string, url: string, r: Response): (out: seq<NamedCache>)
    ensures Names(out) == if name in Names(cs) then Names(cs) else Names(cs) + [name]
    ensures EntriesOf(out, name) == EntriesOf(cs, name)[url := r]
    ensures forall other :: other != name ==> EntriesOf(out, other) == EntriesOf(cs, other)
  {
    if cs == [] then [NamedCache(name, map[url := r])]
    else if cs[0].name == name then [cs[0].(entries := cs[0].entries[url := r])] + cs[1..]
    else [cs[0]] + PutIn(cs[1..], name, url, r)
  }

  lemma PutInKeepsDistinct(cs: seq<NamedCache>, name: string, url: string, r: Response)
    requires DistinctNames(cs)
    ensures DistinctNames(PutIn(cs, name, url, r))
  {
    var out := PutIn(cs, name, url, r);
    var before, after := Names(cs), Names(out);
    forall i, j | 0 <= i < j < |out| ensures out[i].name != out[j].name {
      assert after[i] == out[i].name && after[j] == out[j].name;
      if j < |cs| {
        assert after[i] == before[i] && after[j] == before[j];
      } else {
        assert after[j] == name && after[i] == before[i] && name !in before;
      }
    }
  }

  /** `caches.open(name)` alone. */
  function OpenIn(cs: seq<NamedCache>, name: string): (out: seq<NamedCache>)
    ensures Names(out) == if name in Names(cs) then Names(cs) else Names(cs) + [name]
  {
    if name in Names(cs) then cs else cs + [NamedCache(name, map[])]
  }

  lemma {:induction false} OpenKeepsEntries(cs: seq<NamedCache>, name: string, n: string)
    ensures EntriesOf(OpenIn(cs, name), n) == EntriesOf(cs, n)
  {
    if name !in Names(cs) && cs != [] {
      assert Names(cs) == [cs[0].name] + Names(cs[1..]);
      OpenKeepsEntries(cs[1..], name, n);
      assert OpenIn(cs, name)[1..] == OpenIn(cs[1..], name);
    }
  }

  /** `caches.delete(name)`. */
  function Without(cs: seq<NamedCache>, name: string): seq<NamedCache> {
    if cs == [] then []
    else (if cs[0].name == name then [] else [cs[0]]) + Without(cs[1..], name)
  }

  /** Deleting keeps the other caches, in order, and nothing called `name`. */
  lemma {:induction false} WithoutKeepsOthers(cs: seq<NamedCache>, name: string)
    ensures forall c :: c in Without(cs, name) <==> c in cs && c.name != name
  {
    if cs != [] {
      WithoutKeepsOthers(cs[1..], name);
      assert forall c :: c in cs <==> c == cs[0] || c in cs[1..];
    }
  }

  lemma {:induction false} WithoutKeepsDistinct(cs: seq<NamedCache>, name: string)
    requires DistinctNames(cs)
    ensures DistinctNames(Without(cs, name))
  {
    if cs != [] {
      WithoutKeepsDistinct(cs[1..], name);
      var rest := Without(cs[1..], name);
      WithoutKeepsOthers(cs[1..], name);
      forall c | c in rest ensures c.name != cs[0].name {
        var k :| 0 <= k < |cs[1..]| && cs[1..][k] == c;
        assert cs[k + 1] == c;
      }
      var out := Without(cs, name);
      if cs[0].name != name {
        assert out == [cs[0]] + rest;
        forall i, j | 0 <= i < j < |out| ensures out[i].name != out[j].name {
          if i == 0 {
            assert out[j] == rest[j - 1] && out[j] in rest;
          } else {
            assert out[i] == rest[i - 1] && out[j] == rest[j - 1];
          }
        }
      } else {
        assert out == rest;
      }
    }
  }

  /** Only the caches called `CacheName`. */
  function Current(cs: seq<NamedCache>): seq<NamedCache> {
    if cs == [] then []
    else (if cs[0].name == CacheName then [cs[0]] else []) + Current(cs[1..])
  }

  lemma {:induction false} WithoutAppend(a: seq<NamedCache>, b: seq<NamedCache>, n: string)
    ensures Without(a + b, n) == Without(a, n) + Without(b, n)
  {
    if a != [] {
      assert (a + b)[1..] == a[1..] + b;
      WithoutAppend(a[1..], b, n);
    } else {
      assert a + b == b;
    }
  }

  /** Deleting a name no cache has changes nothing. */
  lemma {:induction false} WithoutAbsent(cs: seq<NamedCache>, n: string)
    requires forall k :: 0 <= k < |cs| ==> cs[k].name != n
    ensures Without(cs, n) == cs
  {
    if cs != [] {
      WithoutAbsent(cs[1..], n);
    }
  }

  lemma {:induction false} CurrentNone(cs: seq<NamedCache>)
    requires forall i :: 0 <= i < |cs| ==> cs[i].name != CacheName
    ensures Current(cs) == []
  {
    if cs != [] {
      CurrentNone(cs[1..]);
    }
  }

  /** After activation, a lookup can only find what the current cache holds. */
  lemma {:induction false} CurrentMatch(cs: seq<NamedCache>, url: string)
    requires DistinctNames(cs)
    ensures MatchIn(Current(cs), url)
      == if url in EntriesOf(cs, CacheName) then Some(EntriesOf(cs, CacheName)[url]) else None
  {
    if cs != [] {
      if cs[0].name == CacheName {
        CurrentNone(cs[1..]);
        assert Current(cs) == [cs[0]];
      } else {
        CurrentMatch(cs[1..], url);
        assert Current(cs) == Current(cs[1..]);
      }
    }
  }

  lemma ActivatedMatch(cs: seq<NamedCache>)
    requires DistinctNames(cs)
    ensures forall url :: (MatchIn(Current(cs), url)
      == if url in EntriesOf(cs, CacheName) then Some(EntriesOf(cs, CacheName)[url]) else None)
  {
    forall url {
      CurrentMatch(cs, url);
    }
  }

  /** Storing each URL in turn under the current cache name, the last one last. */
  function PutAll(cs: seq<NamedCache>, urls: seq<string>, fetched: map<string, Response>): seq<NamedCache>
    requires forall i :: 0 <= i < |urls| ==> urls[i] in fetched
  {
    if urls == [] then cs
    else
      var last := urls[|urls| - 1];
      PutIn(PutAll(cs, urls[..|urls| - 1], fetched), CacheName, last, fetched[last])
  }

  /** Every stored URL maps to its fetched response, and the other caches are untouched. */
  lemma PutAllStores(cs: seq<NamedCache>, urls: seq<string>, fetched: map<string, Response>)
    requires forall i :: 0 <= i < |urls| ==> urls[i] in fetched
    ensures var out := PutAll(cs, urls, fetched);
      (forall i :: 0 <= i < |urls| ==> (urls[i] in EntriesOf(out, CacheName)
        && EntriesOf(out, CacheName)[urls[i]] == fetched[urls[i]]))
      && forall n :: n != CacheName ==> EntriesOf(out, n) == EntriesOf(cs, n)
  {
    PutAllStoresUrls(cs, urls, fetched);
    PutAllKeepsOthers(cs, urls, fetched);
  }

  lemma {:induction false} PutAllStoresUrls(cs: seq<NamedCache>, urls: seq<string>, fetched: map<string, Response>)
    requires forall i :: 0 <= i < |urls| ==> urls[i] in fetched
    ensures forall i :: 0 <= i < |urls| ==> (urls[i] in EntriesOf(PutAll(cs, urls, fetched), CacheName)
      && EntriesOf(PutAll(cs, urls, fetched), CacheName)[urls[i]] == fetched[urls[i]])
  {
    if urls != [] {
      var init, last := urls[..|urls| - 1], urls[|urls| - 1];
      PutAllStoresUrls(cs, init, fetched);
      var before := EntriesOf(PutAll(cs, init, fetched), CacheName);
      var after := EntriesOf(PutAll(cs, urls, fetched), CacheName);
      assert after == before[last := fetched[last]];
      forall i | 0 <= i < |urls|
        ensures urls[i] in after && after[urls[i]] == fetched[urls[i]]
      {
        if i < |urls| - 1 {
          assert urls[i] == init[i];
        }
      }
    }
  }

  lemma {:induction false} PutAllKeepsOthers(cs: seq<NamedCache>, urls: seq<string>, fetched: map<string, Response>)
    requires forall i :: 0 <= i < |urls| ==> urls[i] in fetched
    ensures forall n :: n != CacheName ==> EntriesOf(PutAll(cs, urls, fetched), n) == EntriesOf(cs, n)
  {
    if urls != [] {
      PutAllKeepsOthers(cs, urls[..|urls| - 1], fetched);
    }
  }

  /** The browser's cache storage, shared by all events of the worker. */
  class CacheStorage {
    var caches: seq<NamedCache>

    ghost predicate Valid()
      reads this
    {
      DistinctNames(caches)
    }

    constructor()
      ensures Valid() && caches == []
    {
      caches := [];
    }

    function Keys(): (ns: seq<string>)
      reads this
      ensures ns == Names(caches)
    {
      Names(caches)
    }

    function Match(url: string): (r: Option<Response>)
      reads this
      ensures r == MatchIn(caches, url)
    {
      MatchIn(caches, url)
    }

    method Open(name: string)
      requires Valid()
      modifies this
      ensures Valid() && caches == OpenIn(old(caches), name)
    {
      if name !in Names(caches) {
        caches := caches + [NamedCache(name, map[])];
      }
    }

    method Put(name: string, url: string, r: Response)
      requires Valid()
      modifies this
      ensures Valid() && caches == PutIn(old(caches), name, url, r)
    {
      PutInKeepsDistinct(caches, name, url, r);
      caches := PutIn(caches, name, url, r);
    }

    method Delete(name: string)
      requires Valid()
      modifies this
      ensures Valid() && caches == Without(old(caches), name)
    {
      WithoutKeepsDistinct(caches, name);
      caches := Without(caches, name);
    }
  }

  /** `cache.addAll`: all of the URLs are stored, in order, or none when any fetch failed or was not ok. */
  method AddAll(storage: CacheStorage, urls: seq<string>, fetched: map<string, Response>) returns (stored: bool)
    requires storage.Valid()
    modifies storage
    ensures storage.Valid()
    ensures stored <==> forall i :: 0 <= i < |urls| ==> urls[i] in fetched && Ok(fetched[urls[i]])
    ensures stored ==> storage.caches == PutAll(old(storage.caches), urls, fetched)
    ensures !stored ==> storage.caches == old(storage.caches)
  {
    stored := forall i :: 0 <= i < |urls| ==> urls[i] in fetched && Ok(fetched[urls[i]]);
    if !stored {
      return;
    }
    ghost var start := storage.caches;
    var k := 0;
    while k < |urls|
      invariant 0 <= k <= |urls| && storage.Valid()
      invariant storage.caches == PutAll(start, urls[..k], fetched)
    {
      var u := urls[k];
      assert urls[..k + 1][..k] == urls[..k];
      storage.Put(CacheName, u, fetched[u]);
      k := k + 1;
    }
    assert urls[..k] == urls;
  }

  /** `install`: the current cache is opened and every listed asset is added to it. */
  method Install(storage: CacheStorage, fetched: map<string, Response>) returns (installed: bool)
    requires storage.Valid()
    modifies storage
    ensures storage.Valid()
    ensures installed <==> forall i :: 0 <= i < |StaticAssets| ==> StaticAssets[i] in fetched && Ok(fetched[StaticAssets[i]])
    ensures installed ==> storage.caches == PutAll(OpenIn(old(storage.caches), CacheName), StaticAssets, fetched)
    ensures !installed ==> storage.caches == OpenIn(old(storage.caches), CacheName)
  {
    storage.Open(CacheName);
    installed := AddAll(storage, StaticAssets, fetched);
  }

  /** After a full install every listed asset is in the current cache as fetched. */
  lemma InstalledAssetsStored(cs: seq<NamedCache>, fetched: map<string, Response>, i: nat)
    requires forall k :: 0 <= k < |StaticAssets| ==> StaticAssets[k] in fetched
    requires i < |StaticAssets|
    ensures var out := PutAll(OpenIn(cs, CacheName), StaticAssets, fetched);
      StaticAssets[i] in EntriesOf(out, CacheName) && EntriesOf(out, CacheName)[StaticAssets[i]] == fetched[StaticAssets[i]]
  {
    PutAllStores(OpenIn(cs, CacheName), StaticAssets, fetched);
  }

  /** `activate`: every cache whose name is not the current one is deleted, in order. */
  method Activate(storage: CacheStorage)
    requires storage.Valid()
    modifies storage
    ensures storage.Valid()
    ensures storage.caches == Current(old(storage.caches))
    ensures forall url :: (storage.Match(url)
      == if url in EntriesOf(old(storage.caches), CacheName) then Some(EntriesOf(old(storage.caches), CacheName)[url]) else None)
  {
    ghost var original := storage.caches;
    var cacheNames := storage.Keys();
    KeptNone(original);
    var i := 0;
    while i < |cacheNames|
      invariant 0 <= i <= |cacheNames| && storage.Valid()
      invariant storage.caches == Kept(original, i)
    {
      SweepName(storage, cacheNames[i], original, i);
      i := i + 1;
    }
    ActivateResult(original, i);
  }

  /** What `activate` does with the `i`-th name: deletes its cache unless it is the current one. */
  method SweepName(storage: CacheStorage, n: string, ghost original: seq<NamedCache>, ghost i: nat)
    requires storage.Valid() && DistinctNames(original) && i < |original| && n == original[i].name
    requires storage.caches == Kept(original, i)
    modifies storage
    ensures storage.Valid() && storage.caches == Kept(original, i + 1)
  {
    KeptStep(original, i);
    if n != CacheName {
      storage.Delete(n);
    }
  }

  /** Once every cache has been swept, only the current one is left, and lookups find only its entries. */
  lemma ActivateResult(cs: seq<NamedCache>, i: nat)
    requires DistinctNames(cs) && i >= |cs|
    ensures Kept(cs, i) == Current(cs)
    ensures forall url :: (MatchIn(Kept(cs, i), url)
      == if url in EntriesOf(cs, CacheName) then Some(EntriesOf(cs, CacheName)[url]) else None)
  {
    KeptAll(cs, i);
    ActivatedMatch(cs);
  }

  /** The caches left once the first `i` names have been swept: the current ones among them, and all after them. */
  function Kept(cs: seq<NamedCache>, i: nat): seq<NamedCache> {
    if cs == [] then []
    else (if i == 0 || cs[0].name == CacheName then [cs[0]] else []) + Kept(cs[1..], if i == 0 then 0 else i - 1)
  }

  lemma {:induction false} KeptNone(cs: seq<NamedCache>)
    ensures Kept(cs, 0) == cs
  {
    if cs != [] {
      KeptNone(cs[1..]);
    }
  }

  lemma {:induction false} KeptAll(cs: seq<NamedCache>, i: nat)
    requires i >= |cs|
    ensures Kept(cs, i) == Current(cs)
  {
    if cs != [] {
      KeptAll(cs[1..], i - 1);
    }
  }

  /**
   * One turn of the sweep. Names are distinct, so deleting the `i`-th name removes exactly the
   * `i`-th cache; the current one is not deleted.
   */
  lemma {:induction false} KeptStep(cs: seq<NamedCache>, i: nat)
    requires DistinctNames(cs) && i < |cs|
    ensures cs[i].name != CacheName ==> Without(Kept(cs, i), cs[i].name) == Kept(cs, i + 1)
    ensures cs[i].name == CacheName ==> Kept(cs, i) == Kept(cs, i + 1)
  {
    var n := cs[i].name;
    if i == 0 {
      KeptNone(cs);
      KeptNone(cs[1..]);
      if n != CacheName {
        forall k | 0 <= k < |cs[1..]| ensures cs[1..][k].name != n {
          assert cs[1..][k] == cs[k + 1];
        }
        WithoutAbsent(cs[1..], n);
        assert Without(cs, n) == [] + Without(cs[1..], n);
      }
    } else {
      assert cs[1..][i - 1] == cs[i];
      KeptStep(cs[1..], i - 1);
      if n != CacheName {
        var head := if cs[0].name == CacheName then [cs[0]] else [];
        WithoutAppend(head, Kept(cs[1..], i - 1), n);
      }
    }
  }

  /**
   * `fetch`. `network` is what a network request would give (`None` when it fails); `fetched`
   * says whether one was made. The cache write happens in the same step here.
   */
  method HandleFetch(storage: CacheStorage, req: Request, network: Option<Response>)
    returns (outcome: Outcome, fetched: bool)
    requires storage.Valid()
    modifies storage
    ensures storage.Valid()
    ensures Classify(req) == NotIntercepted ==>
      outcome == NotHandled && !fetched && storage.caches == old(storage.caches)
    ensures Classify(req) == CacheFirst && old(MatchIn(storage.caches, req.url)).Some? ==>
      outcome == Served(old(MatchIn(storage.caches, req.url)).value) && !fetched
      && storage.caches == old(storage.caches)
    ensures Classify(req) == CacheFirst && old(MatchIn(storage.caches, req.url)).None? ==>
      fetched && outcome == (if network.Some? then Served(network.value) else NetworkError)
      && storage.caches == if network.Some? && MediaCacheable(network.value)
        then PutIn(old(storage.caches), CacheName, req.url, network.value) else old(storage.caches)
    ensures Classify(req) == StaleWhileRevalidate ==>
      fetched
      && outcome == (if old(MatchIn(storage.caches, req.url)).Some? then Served(old(MatchIn(storage.caches, req.url)).value)
        else if network.Some? then Served(network.value) else NetworkError)
      && storage.caches == if network.Some? && PageCacheable(network.value)
        then PutIn(old(storage.caches), CacheName, req.url, network.value) else old(storage.caches)
  {
    var strategy := Classify(req);
    if strategy == NotIntercepted {
      return NotHandled, false;
    }
    var cached := storage.Match(req.url);
    fetched := true;
    if strategy == CacheFirst {
      if cached.Some? {
        return Served(cached.value), false;
      }
      match network
      case None =>
        outcome := NetworkError;
      case Some(r) =>
        if MediaCacheable(r) {
          storage.Put(CacheName, req.url, r);
        }
        outcome := Served(r);
    } else {
      if network.Some? && PageCacheable(network.value) {
        storage.Put(CacheName, req.url, network.value);
      }
      outcome := if cached.Some? then Served(cached.value)
        else if network.Some? then Served(network.value) else NetworkError;
    }
  }

  /** A media response cached on a miss is what the next lookup for that URL gets. */
  lemma {:induction false} CachedMediaServedNext(cs: seq<NamedCache>, url: string, r: Response)
    requires MatchIn(cs, url).None?
    ensures MatchIn(PutIn(cs, CacheName, url, r), url) == Some(r)
  {
    if cs != [] && cs[0].name != CacheName {
      CachedMediaServedNext(cs[1..], url, r);
    }
  }
}
