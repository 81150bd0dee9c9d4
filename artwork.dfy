/**
 * Album art for streamed tracks: recognising the plugin's stream urls, turning a
 * stream url into the server's artwork url, the process-wide caches (a bounded
 * recency-ordered cache of fetched images and a set of urls that failed), and the
 * per-track extractor instance that resolves a front cover at most once.
 */
module Artwork {
  import opened Common
  import opened Strings

  /** The image bytes the server returned for an artwork url. */
  type ArtData = seq<Byte>

  /** The kinds of art the host asks for. */
  datatype ArtId = CoverFront | CoverBack | Disc | Icon | Artist

  // ---------------------------------------------------------------------
  // Urls

  /**
   * `is_nsync_stream_url`: a path (absent for a null pointer) that starts with
   * `http://` or `https://` and contains `/stream/` somewhere.
   */
  function IsNsyncStreamUrl(path: Option<string>): (r: bool)
    ensures r <==> path.Some? && ("http://" <= path.value || "https://" <= path.value)
                   && exists i :: OccursAt(path.value, "/stream/", i)
  {
    if path.None? then false
    else
      var p := path.value;
      if !("http://" <= p) && !("https://" <= p) then false
      else if IndexOf(p, "/stream/").None? then
        assert forall i :: !OccursAt(p, "/stream/", i);
        false
      else true
  }

  /**
   * `stream_url_to_artwork_url`: the first `/stream/` becomes `/artwork/`, the text
   * before and after it unchanged; a url without the marker is returned as it is.
   */
  function StreamUrlToArtworkUrl(url: string): string {
    match IndexOf(url, "/stream/")
    case None => url
    case Some(k) => url[..k] + "/artwork/" + url[k + 8..]
  }

  /** Without the marker the url is unchanged; otherwise its first occurrence is the one replaced. */
  lemma ReplacesFirstMarker(url: string)
    ensures (forall i :: !OccursAt(url, "/stream/", i)) ==> StreamUrlToArtworkUrl(url) == url
    ensures forall k: nat :: OccursAt(url, "/stream/", k) && (forall j :: 0 <= j < k ==> !OccursAt(url, "/stream/", j)) ==>
      StreamUrlToArtworkUrl(url) == url[..k] + "/artwork/" + url[k + 8..]
  {
    forall k: nat | OccursAt(url, "/stream/", k) && (forall j :: 0 <= j < k ==> !OccursAt(url, "/stream/", j))
      ensures StreamUrlToArtworkUrl(url) == url[..k] + "/artwork/" + url[k + 8..]
    {
      IndexOfUnique(url, "/stream/", k);
    }
  }

  /** Putting `/stream/` back where `/artwork/` was inserted gives the stream url again. */
  lemma ArtworkUrlRoundTrip(url: string, k: nat)
    requires OccursAt(url, "/stream/", k)
    requires forall j :: 0 <= j < k ==> !OccursAt(url, "/stream/", j)
    ensures var a := StreamUrlToArtworkUrl(url);
      |a| == |url| + 1 && OccursAt(a, "/artwork/", k) && a[..k] + "/stream/" + a[k + 9..] == url
  {
    IndexOfUnique(url, "/stream/", k);
    var a := url[..k] + "/artwork/" + url[k + 8..];
    assert a[..k] == url[..k];
    assert a[k..k + 9] == "/artwork/";
    assert a[k + 9..] == url[k + 8..];
    assert url == url[..k] + url[k..k + 8] + url[k + 8..];
  }

  // ---------------------------------------------------------------------
  // The image cache

  const CacheCapacity: nat := 100

  /** `std::list::remove`: every occurrence of `x` goes, the rest keep their order. */
  function RemoveAll(s: seq<string>, x: string): (r: seq<string>)
    ensures x !in r
    ensures forall y :: y != x ==> (y in r <==> y in s)
    ensures |r| <= |s|
  {
    if s == [] then []
    else (if s[0] == x then [] else [s[0]]) + RemoveAll(s[1..], x)
  }

  /**
   * The eviction loop of `cache_artwork`: while the map is at capacity and the recency
   * list is not empty, the url at the back of the list is dropped from both.
   */
  function Evict(entries: map<string, ArtData>, lru: seq<string>): (r: (map<string, ArtData>, seq<string>))
    ensures r.1 <= lru
    ensures |r.0| >= CacheCapacity ==> r.1 == []
    decreases |lru|
  {
    if |entries| >= CacheCapacity && lru != [] then
      Evict(entries - {lru[|lru| - 1]}, lru[..|lru| - 1])
    else
      (entries, lru)
  }

  /** Eviction drops a cached url exactly when it is in the part of the list cut off, and keeps the others' images. */
  lemma {:induction false} EvictDropsBack(entries: map<string, ArtData>, lru: seq<string>, k: string)
    ensures var r := Evict(entries, lru);
      && (k in r.0 <==> k in entries && k !in lru[|r.1|..])
      && (k in r.0 ==> r.0[k] == entries[k])
    decreases |lru|
  {
    if |entries| >= CacheCapacity && lru != [] {
      var oldest := lru[|lru| - 1];
      var rest := lru[..|lru| - 1];
      EvictDropsBack(entries - {oldest}, rest, k);
      var r := Evict(entries - {oldest}, rest);
      assert Evict(entries, lru) == r;
      CutKeepsLast(lru, |r.1|, k);
    }
  }

  /** Cutting a list at `i` keeps its last element in the cut-off part. */
  lemma CutKeepsLast(lru: seq<string>, i: nat, k: string)
    requires i < |lru|
    ensures k in lru[i..] <==> k in lru[..|lru| - 1][i..] || k == lru[|lru| - 1]
  {
    assert lru[i..] == lru[..|lru| - 1][i..] + [lru[|lru| - 1]];
  }

  /** Every cached url is on the recency list. */
  predicate Tracked(entries: map<string, ArtData>, lru: seq<string>) {
    forall k :: k in entries ==> k in lru
  }

  /** Eviction keeps every cached url tracked and, if they all were, ends below capacity. */
  lemma {:induction false} EvictBelowCapacity(entries: map<string, ArtData>, lru: seq<string>)
    requires Tracked(entries, lru)
    ensures Tracked(Evict(entries, lru).0, Evict(entries, lru).1)
    ensures |Evict(entries, lru).0| < CacheCapacity
    decreases |lru|
  {
    if |entries| >= CacheCapacity && lru != [] {
      var oldest := lru[|lru| - 1];
      var rest := lru[..|lru| - 1];
      forall k | k in entries - {oldest}
        ensures k in rest
      {
        var i :| 0 <= i < |lru| && lru[i] == k;
        assert i < |lru| - 1;
        assert rest[i] == k;
      }
      EvictBelowCapacity(entries - {oldest}, rest);
    } else if lru == [] {
      assert entries == map[];
    }
  }

  /** The process-wide cache of fetched images, in recency order (front = most recent). */
  class ArtworkCache {
    var entries: map<string, ArtData>
    var lru: seq<string>

    constructor()
      ensures entries == map[] && lru == []
    {
      entries := map[];
      lru := [];
    }

    ghost predicate Valid()
      reads this
    {
      Tracked(entries, lru) && |entries| <= CacheCapacity
    }

    /**
     * `get_cached_artwork`: a hit returns the stored image and moves the url to the
     * front of the recency list, dropping its other occurrences; a miss changes nothing.
     */
    method Get(url: string) returns (art: Option<ArtData>)
      modifies this
      ensures url in old(entries) ==> art == Some(old(entries)[url]) && lru == [url] + RemoveAll(old(lru), url)
      ensures url !in old(entries) ==> art == None && lru == old(lru)
      ensures entries == old(entries)
      ensures old(Valid()) ==> Valid()
    {
      if url in entries {
        lru := RemoveAll(lru, url);
        lru := [url] + lru;
        art := Some(entries[url]);
      } else {
        art := None;
      }
    }

    /**
     * `cache_artwork`: evicts from the back while the cache is full, then stores the
     * image and puts the url at the front.
     */
    method Put(url: string, art: ArtData)
      modifies this
      ensures var e := Evict(old(entries), old(lru));
        entries == e.0[url := art] && lru == [url] + e.1
      ensures old(Tracked(entries, lru)) ==> Valid()
    {
      ghost var target := Evict(entries, lru);
      while |entries| >= CacheCapacity && lru != []
        invariant Evict(entries, lru) == target
        decreases |lru|
      {
        var oldest := lru[|lru| - 1];
        lru := lru[..|lru| - 1];
        entries := entries - {oldest};
      }
      if old(Tracked(entries, lru)) {
        EvictBelowCapacity(old(entries), old(lru));
      }
      entries := entries[url := art];
      lru := [url] + lru;
    }

    /** `on_quit`, for the image cache. */
    method Clear()
      modifies this
      ensures entries == map[] && lru == []
    {
      entries := map[];
      lru := [];
    }
  }

  // ---------------------------------------------------------------------
  // The failed-url set

  const FailedLimit: nat := 1000

  /** The process-wide set of artwork urls whose fetch failed. */
  class FailedUrls {
    var failed: set<string>

    constructor()
      ensures failed == {}
    {
      failed := {};
    }

    ghost predicate Valid()
      reads this
    {
      |failed| <= FailedLimit + 1
    }

    /** `is_url_failed`. */
    function IsFailed(url: string): bool
      reads this
    {
      url in failed
    }

    /** `mark_url_failed`: a set past the limit is emptied first, then the url is added. */
    method MarkFailed(url: string)
      modifies this
      ensures IsFailed(url)
      ensures failed == (if |old(failed)| > FailedLimit then {url} else old(failed) + {url})
      ensures old(Valid()) ==> Valid()
    {
      if |failed| > FailedLimit {
        failed := {};
      }
      failed := failed + {url};
    }

    /** `on_quit`, for the failed urls. */
    method Clear()
      modifies this
      ensures failed == {}
    {
      failed := {};
    }
  }

  /** `on_quit`: both process-wide caches are emptied. */
  method OnQuit(cache: ArtworkCache, failed: FailedUrls)
    modifies cache, failed
    ensures cache.entries == map[] && cache.lru == [] && failed.failed == {}
  {
    failed.Clear();
    cache.Clear();
  }

  // ---------------------------------------------------------------------
  // The extractor

  /** One track's art resolver: the stream url, its artwork url and the memoised result. */
  class ArtworkInstance {
    const streamUrl: string
    const artworkUrl: string
    var cachedArt: Option<ArtData>
    var cacheChecked: bool

    constructor(streamUrl: string)
      ensures this.streamUrl == streamUrl && artworkUrl == StreamUrlToArtworkUrl(streamUrl)
      ensures cachedArt == None && !cacheChecked
    {
      this.streamUrl := streamUrl;
      artworkUrl := StreamUrlToArtworkUrl(streamUrl);
      cachedArt := None;
      cacheChecked := false;
    }

    /**
     * `query`. Only the front cover is served. The first query looks in the global
     * cache, then in the failed set, then fetches; `fetched` is what the fetch gives
     * (`None` for a failed request). Later queries return the memoised result. `request`
     * is the url fetched by this call, if any; `None` as `art` is "not found".
     */
    method Query(what: ArtId, cache: ArtworkCache, failed: FailedUrls, fetched: Option<ArtData>)
      returns (art: Option<ArtData>, request: Option<string>)
      modifies this, cache, failed
      ensures what != CoverFront ==>
        art == None && request == None && cachedArt == old(cachedArt) && cacheChecked == old(cacheChecked)
        && cache.entries == old(cache.entries) && cache.lru == old(cache.lru) && failed.failed == old(failed.failed)
      ensures what == CoverFront && old(cacheChecked) ==>
        art == old(cachedArt) && request == None && cachedArt == old(cachedArt) && cacheChecked
        && cache.entries == old(cache.entries) && cache.lru == old(cache.lru) && failed.failed == old(failed.failed)
      ensures what == CoverFront ==> cacheChecked
      ensures what == CoverFront && !old(cacheChecked) && artworkUrl in old(cache.entries) ==>
        art == Some(old(cache.entries)[artworkUrl]) && cachedArt == art && request == None
        && cache.entries == old(cache.entries) && cache.lru == [artworkUrl] + RemoveAll(old(cache.lru), artworkUrl)
        && failed.failed == old(failed.failed)
      ensures what == CoverFront && !old(cacheChecked) && artworkUrl !in old(cache.entries) && artworkUrl in old(failed.failed) ==>
        art == None && request == None && cachedArt == old(cachedArt)
        && cache.entries == old(cache.entries) && cache.lru == old(cache.lru) && failed.failed == old(failed.failed)
      ensures what == CoverFront && !old(cacheChecked) && artworkUrl !in old(cache.entries) && artworkUrl !in old(failed.failed) ==>
        request == Some(artworkUrl) && cacheChecked
      ensures what == CoverFront && !old(cacheChecked) && artworkUrl !in old(cache.entries) && artworkUrl !in old(failed.failed)
              && (fetched.None? || fetched.value == []) ==>
        art == None && cachedArt == old(cachedArt) && artworkUrl in failed.failed
        && cache.entries == old(cache.entries) && cache.lru == old(cache.lru)
        && failed.failed == (if |old(failed.failed)| > FailedLimit then {artworkUrl} else old(failed.failed) + {artworkUrl})
      ensures what == CoverFront && !old(cacheChecked) && artworkUrl !in old(cache.entries) && artworkUrl !in old(failed.failed)
              && fetched.Some? && fetched.value != [] ==>
        art == fetched && cachedArt == fetched && failed.failed == old(failed.failed)
        && var e := Evict(old(cache.entries), old(cache.lru));
           cache.entries == e.0[artworkUrl := fetched.value] && cache.lru == [artworkUrl] + e.1
    {
      request := None;
      if what != CoverFront {
        return None, None;
      }
      if cacheChecked {
        return cachedArt, None;
      }
      cacheChecked := true;
      var hit := cache.Get(artworkUrl);
      if hit.Some? {
        cachedArt := hit;
        return cachedArt, None;
      }
      if failed.IsFailed(artworkUrl) {
        return None, None;
      }
      request := Some(artworkUrl);
      if fetched.None? {
        failed.MarkFailed(artworkUrl);
        return None, request;
      }
      if |fetched.value| == 0 {
        failed.MarkFailed(artworkUrl);
        return None, request;
      }
      cachedArt := fetched;
      cache.Put(artworkUrl, fetched.value);
      art := cachedArt;
    }

    /** `query_paths`: an empty path list for the front cover, "not found" otherwise. */
    function QueryPaths(what: ArtId): (r: Option<seq<string>>)
      ensures r.Some? <==> what == CoverFront
      ensures r.Some? ==> r.value == []
    {
      if what == CoverFront then Some([]) else None
    }
  }

  /** Why the host gets no extractor instance. */
  datatype OpenError = UnsupportedFormat | NotFound

  /** `is_our_path`: the extension is ignored. */
  function IsOurPath(path: string, extension: string): (r: bool)
    ensures r == IsNsyncStreamUrl(Some(path))
  {
    IsNsyncStreamUrl(Some(path))
  }

  /** `nsync_artwork_extractor::open`: a path that is not a stream url is an unsupported format. */
  method Open(path: string) returns (r: Result<ArtworkInstance, OpenError>)
    ensures r.Ok? <==> IsNsyncStreamUrl(Some(path))
    ensures r.Err? ==> r.error == UnsupportedFormat
    ensures r.Ok? ==> fresh(r.value) && r.value.streamUrl == path && !r.value.cacheChecked && r.value.cachedArt == None
  {
    if !IsNsyncStreamUrl(Some(path)) {
      return Err(UnsupportedFormat);
    }
    var inst := new ArtworkInstance(path);
    r := Ok(inst);
  }

  /** The test `nsync_artwork_fallback::open` applies to each item's path. */
  function StreamFilter(): string -> bool {
    p => IsNsyncStreamUrl(Some(p))
  }

  /** `nsync_artwork_fallback::open`: an instance for the first item with a stream url, else "not found". */
  method FallbackOpen(paths: seq<string>) returns (r: Result<ArtworkInstance, OpenError>)
    ensures FirstFrom(paths, StreamFilter(), 0).None? ==> r == Err(NotFound)
    ensures FirstFrom(paths, StreamFilter(), 0).Some? ==>
      r.Ok? && fresh(r.value) && r.value.streamUrl == paths[FirstFrom(paths, StreamFilter(), 0).value]
      && !r.value.cacheChecked && r.value.cachedArt == None
  {
    var i := 0;
    while i < |paths|
      invariant 0 <= i <= |paths|
      invariant FirstFrom(paths, StreamFilter(), i) == FirstFrom(paths, StreamFilter(), 0)
    {
      if IsNsyncStreamUrl(Some(paths[i])) {
        var inst := new ArtworkInstance(paths[i]);
        return Ok(inst);
      }
      i := i + 1;
    }
    return Err(NotFound);
  }

  /** The item chosen is a stream url and none before it is; "not found" means no item is one. */
  lemma FallbackChoosesFirst(paths: seq<string>)
    ensures var r := FirstFrom(paths, StreamFilter(), 0);
      (r.Some? ==> IsNsyncStreamUrl(Some(paths[r.value])) &&
                   forall j :: 0 <= j < r.value ==> !IsNsyncStreamUrl(Some(paths[j])))
      && (r.None? ==> forall j :: 0 <= j < |paths| ==> !IsNsyncStreamUrl(Some(paths[j])))
  {
    FirstFromFirst(paths, StreamFilter(), 0);
  }
}
