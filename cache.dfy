/** The visit cache behind `getVisitDataForLink`: `visitCache` maps a normalised URL to its
    visit summary, `pendingQueries` holds the URLs whose history query is registered and not
    yet settled. The query itself is asynchronous; here it is three explicit steps: `Begin`
    (everything up to the `await`), then `Complete` or `Fail` when the query settles. The
    state also counts the queries in flight, so that "at most one query per URL" can be
    stated. */
module VisitCache {
  import opened Visits

  /** The cache. `inFlight` has one entry per history query issued and not yet settled. A
      query stays in flight when its `pendingQueries` entry disappears under it: `clearCache`
      and `removeHighlights` wipe the map, and an older query for the same URL deletes the
      newer one's entry when it settles. */
  datatype Cache = Cache(visitCache: map<string, VisitData>, pending: set<string>, inFlight: multiset<string>)
  {
    /** Every pending URL has a query in flight, and no URL is both cached and pending. */
    predicate Valid() {
      && multiset(pending) <= inFlight
      && forall u :: u in pending ==> u !in visitCache
    }

    /** The queries in flight that no pending entry stands for. */
    function Strays(): multiset<string> {
      inFlight - multiset(pending)
    }
  }

  function EmptyCache(): (c: Cache)
    ensures c.Valid() && c.Strays() == multiset{}
  {
    Cache(map[], {}, multiset{})
  }

  /** How `getVisitDataForLink` answers: from the cache, by awaiting the pending query for the
      URL, or by issuing a new query. */
  datatype Lookup = Hit(data: VisitData) | Joined | Issued

  /** `getVisitDataForLink(url)` up to its `await`: a cached URL is answered without a query,
      a pending one reuses its query, any other URL registers a pending entry before the query
      is awaited. */
  function Begin(c: Cache, url: string): (r: (Cache, Lookup))
    ensures r.1.Hit? <==> url in c.visitCache
    ensures r.1.Hit? ==> r.0 == c && r.1.data == c.visitCache[url]
    ensures r.1.Joined? <==> url !in c.visitCache && url in c.pending
    ensures r.1.Joined? ==> r.0 == c
    ensures r.1.Issued? ==>
      && r.0.visitCache == c.visitCache
      && r.0.pending == c.pending + {url}
      && r.0.inFlight == c.inFlight + multiset{url}
    ensures c.Valid() ==> r.0.Valid()
  {
    if url in c.visitCache then (c, Hit(c.visitCache[url]))
    else if url in c.pending then (c, Joined)
    else (Cache(c.visitCache, c.pending + {url}, c.inFlight + multiset{url}), Issued)
  }

  /** The issuing call resumes with the query's result: the pending entry is deleted and the
      summary cached. */
  function Complete(c: Cache, url: string, data: VisitData): (r: Cache)
    requires url in c.inFlight
    ensures url !in r.pending && url in r.visitCache && r.visitCache[url] == data
    ensures forall u :: u != url ==> (u in r.pending <==> u in c.pending)
    ensures forall u :: u != url && u in c.visitCache ==> u in r.visitCache && r.visitCache[u] == c.visitCache[u]
    ensures r.visitCache.Keys == c.visitCache.Keys + {url}
    ensures r.inFlight[url] == c.inFlight[url] - 1
    ensures r.inFlight == c.inFlight - multiset{url}
    ensures c.Valid() ==> r.Valid()
  {
    Cache(c.visitCache[url := data], c.pending - {url}, c.inFlight - multiset{url})
  }

  /** The issuing call resumes with the query's rejection: the pending entry is deleted and
      nothing is cached; the rejection goes on to the callers. */
  function Fail(c: Cache, url: string): (r: Cache)
    requires url in c.inFlight
    ensures url !in r.pending && r.visitCache == c.visitCache
    ensures forall u :: u != url ==> (u in r.pending <==> u in c.pending)
    ensures r.inFlight[url] == c.inFlight[url] - 1
    ensures r.inFlight == c.inFlight - multiset{url}
    ensures c.Valid() ==> r.Valid()
  {
    Cache(c.visitCache, c.pending - {url}, c.inFlight - multiset{url})
  }

  /** `visitCache.clear()` and `pendingQueries.clear()`; queries already issued stay in flight. */
  function Clear(c: Cache): (r: Cache)
    ensures r.visitCache == map[] && r.pending == {}
    ensures r.inFlight == c.inFlight && r.Strays() == c.inFlight
    ensures r.Valid()
  {
    Cache(map[], {}, c.inFlight)
  }

  /** Without strays there is at most one query in flight per URL, and it is the pending one. */
  lemma OneQueryPerUrl(c: Cache, url: string)
    requires c.Valid() && c.Strays() == multiset{}
    ensures c.inFlight[url] <= 1
    ensures c.inFlight[url] == 1 <==> url in c.pending
  {
    assert c.inFlight == multiset(c.pending);
  }

  /** Looking up, completing and failing never create a stray: only a clear does. */
  lemma {:induction false} StepsKeepNoStrays(c: Cache, url: string, data: VisitData)
    requires c.Valid() && c.Strays() == multiset{}
    ensures Begin(c, url).0.Strays() == multiset{}
    ensures url in c.inFlight ==> Complete(c, url, data).Strays() == multiset{}
    ensures url in c.inFlight ==> Fail(c, url).Strays() == multiset{}
  {
    assert c.inFlight == multiset(c.pending);
    if url !in c.visitCache && url !in c.pending {
      assert multiset(c.pending + {url}) == multiset(c.pending) + multiset{url};
    }
    if url in c.inFlight {
      assert url in c.pending;
      assert multiset(c.pending - {url}) == multiset(c.pending) - multiset{url};
    }
  }

  /** Two lookups of one URL in a row issue one query: the second reuses it (or, once it has
      completed, is answered from the cache). */
  lemma SecondLookupJoins(c: Cache, url: string)
    ensures Begin(Begin(c, url).0, url).1 != Issued
  {
  }

  /** After a query completes, the next lookup of its URL is answered from the cache with that
      query's summary, until the cache is cleared. */
  lemma CompletedIsCached(c: Cache, url: string, data: VisitData)
    requires url in c.inFlight
    ensures Begin(Complete(c, url, data), url) == (Complete(c, url, data), Hit(data))
  {
  }

  /** A clear while a query is in flight lets a second query for the same URL be issued. */
  lemma ClearAllowsSecondQuery(c: Cache, url: string)
    requires c.Valid() && url !in c.visitCache && url !in c.pending
    ensures var c1 := Begin(c, url).0;
      var r := Begin(Clear(c1), url);
      r.1 == Issued && r.0.inFlight[url] == c.inFlight[url] + 2
  {
  }

  /** When the older of two queries for one URL settles first, it deletes the newer query's
      pending entry: a third lookup then issues a third query while the newer one is still in
      flight, or, after a completion, is answered with the older query's summary. */
  lemma {:induction false} OlderQueryDeletesNewerEntry(url: string, data: VisitData)
    ensures var c1 := Begin(EmptyCache(), url).0;
      var c2 := Begin(Clear(c1), url).0;
      && url in c2.pending && c2.inFlight[url] == 2
      && Fail(c2, url).inFlight[url] == 1 && url !in Fail(c2, url).pending
      && Begin(Fail(c2, url), url).1 == Issued
      && Begin(Complete(c2, url, data), url).1 == Hit(data)
  {
    var c1 := Begin(EmptyCache(), url).0;
    var c2 := Begin(Clear(c1), url).0;
    assert c2.inFlight == multiset{url, url};
  }
}
