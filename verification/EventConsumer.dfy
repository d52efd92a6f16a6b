/** The search index writers and the Kafka consumer that drives them. */
module EventConsumer {
  import opened Common
  import opened MovieEvents
  import opened SearchCache

  class SearchService {
    var index: Index
    const cache: RedisCache
    const eval: Eval

    constructor (cache: RedisCache, eval: Eval)
      requires cache.store == map[]
      ensures index == map[] && this.cache == cache && this.eval == eval && Coherent()
    {
      index := map[];
      this.cache, this.eval := cache, eval;
    }

    /** Every cached search is what the index would answer now. */
    ghost predicate Coherent()
      reads this, cache
    {
      forall q :: PREFIX + q in cache.store ==> cache.enabled && cache.store[PREFIX + q].text == eval(q, index).text
    }

    /** Searching through the cache answers what the index answers; `None` is a search that the index failed. An answer
        from the index is kept for its lifetime; one that shows a publication date never gets into the cache. */
    method SearchMovies(queryHash: string, readUp: bool, readAt: real, indexUp: bool, writeUp: bool, storedAt: real)
      returns (r: Option<string>)
      requires Coherent()
      modifies cache
      ensures Coherent()
      ensures r.Some? ==> r.value == eval(queryHash, index).text
      ensures indexUp ==> r.Some?
      ensures cache.store == old(cache.store) ||
              (r.Some? && indexUp && cache.enabled && writeUp && !eval(queryHash, index).dated &&
               cache.store == old(cache.store)["search:query:" + queryHash := Cached(r.value, storedAt + 300.0)])
      ensures !readUp && indexUp && cache.enabled && writeUp && !eval(queryHash, index).dated ==>
                cache.Held("search:query:" + queryHash, storedAt + 300.0) == r
    {
      var cached := cache.GetSearchResults(queryHash, readUp, readAt);
      if cached.Some? {
        return cached;
      }
      if !indexUp {
        return None;
      }
      var response := eval(queryHash, index);
      cache.SetSearchResults(queryHash, response, writeUp, storedAt);
      assert forall q :: PREFIX + q == PREFIX + queryHash ==> q == queryHash by {
        forall q | PREFIX + q == PREFIX + queryHash
          ensures q == queryHash
        {
          assert (PREFIX + q)[|PREFIX|..] == q && (PREFIX + queryHash)[|PREFIX|..] == queryHash;
        }
      }
      r := Some(response.text);
    }

    /** `working` is how many Redis commands succeed before one fails. */
    method IndexMovie(doc: Document, working: nat)
      requires cache.Valid()
      modifies this, cache
      ensures index == old(index)[doc.movieId := doc]
      ensures Thinned(old(cache.store), cache.store, PREFIX)
      ensures cache.enabled && working >= 2 * cache.rounds ==> cache.store == Without(old(cache.store), PREFIX)
      ensures working >= 2 * cache.rounds && old(Coherent()) ==> Coherent()
    {
      index := index[doc.movieId := doc];
      var _ := cache.InvalidateMovie(doc.movieId, working);
    }

    /** Not found is the exception a missing document raises, before any invalidation. */
    method UpdateMoviePublishStatus(movieId: string, isPublished: Json, publishedAt: Json, working: nat)
      returns (found: bool)
      requires cache.Valid()
      modifies this, cache
      ensures found == (movieId in old(index))
      ensures found ==>
                index == old(index)[movieId :=
                  old(index)[movieId].(isPublished := isPublished, publishedAt := publishedAt)]
      ensures !found ==> index == old(index) && cache.store == old(cache.store)
      ensures Thinned(old(cache.store), cache.store, PREFIX)
      ensures found && cache.enabled && working >= 2 * cache.rounds ==> cache.store == Without(old(cache.store), PREFIX)
      ensures working >= 2 * cache.rounds && old(Coherent()) ==> Coherent()
    {
      found := movieId in index;
      if !found {
        return;
      }
      index := index[movieId := index[movieId].(isPublished := isPublished, publishedAt := publishedAt)];
      var _ := cache.InvalidateMovie(movieId, working);
    }

    method DeleteMovie(movieId: string, working: nat) returns (found: bool)
      requires cache.Valid()
      modifies this, cache
      ensures found == (movieId in old(index)) && index == old(index) - {movieId}
      ensures !found ==> cache.store == old(cache.store)
      ensures Thinned(old(cache.store), cache.store, PREFIX)
      ensures found && cache.enabled && working >= 2 * cache.rounds ==> cache.store == Without(old(cache.store), PREFIX)
      ensures working >= 2 * cache.rounds && old(Coherent()) ==> Coherent()
    {
      found := movieId in index;
      if found {
        index := index - {movieId};
        var _ := cache.InvalidateMovie(movieId, working);
      }
    }
  }

  class MovieEventConsumer {
    const searchService: SearchService

    constructor (searchService: SearchService)
      ensures this.searchService == searchService
    {
      this.searchService := searchService;
    }

    /** As long as Redis works, an event that changes the index leaves no cached search behind. */
    method ProcessMessage(event: Event, working: nat)
      requires searchService.cache.Valid()
      modifies searchService, searchService.cache
      ensures searchService.index == Deliver(old(searchService.index), event)
      ensures event.action == "created" || event.action == "updated" ==>
                searchService.index ==
                  old(searchService.index)[event.movieId := BuildDocument(event.movieId, event.payload)]
      ensures event.action == "published" && event.movieId in old(searchService.index) ==>
                var was, p := old(searchService.index)[event.movieId], event.payload;
                var flag := if "is_published" in p then p["is_published"] else Bool(true);
                var date := if "published_at" in p && p["published_at"] !in {Null, Str("")} then p["published_at"]
                            else Clock;
                (date.Str? || date.Clock? ==>
                   searchService.index ==
                     old(searchService.index)[event.movieId := was.(isPublished := flag, publishedAt := date)])
      ensures event.action !in {"created", "updated", "published"} ||
              (event.action == "published" && event.movieId !in old(searchService.index)) ==>
                searchService.index == old(searchService.index) &&
                searchService.cache.store == old(searchService.cache.store)
      ensures Thinned(old(searchService.cache.store), searchService.cache.store, PREFIX)
      ensures searchService.index != old(searchService.index) && searchService.cache.enabled &&
              working >= 2 * searchService.cache.rounds ==>
                searchService.cache.store == Without(old(searchService.cache.store), PREFIX)
      ensures working >= 2 * searchService.cache.rounds && old(searchService.Coherent()) ==> searchService.Coherent()
    {
      var payload := event.payload;
      if event.action == "created" {
        searchService.IndexMovie(BuildDocument(event.movieId, payload), working);
      } else if event.action == "updated" {
        searchService.IndexMovie(BuildDocument(event.movieId, payload), working);
      } else if event.action == "published" {
        var isPublished := Get(payload, "is_published", Bool(true));
        var publishedAt := Get(payload, "published_at", Null);
        if !publishedAt.Truthy() {
          publishedAt := Clock;
        }
        var _ := searchService.UpdateMoviePublishStatus(event.movieId, isPublished, publishedAt, working);
      }
    }

    method ConsumeMessages(messages: seq<Event>, working: seq<nat>)
      requires searchService.cache.Valid() && |working| == |messages|
      modifies searchService, searchService.cache
      ensures searchService.index == DeliverAll(old(searchService.index), messages)
      ensures old(searchService.Coherent()) &&
              (forall i :: 0 <= i < |working| ==> working[i] >= 2 * searchService.cache.rounds) ==>
                searchService.Coherent()
    {
      for i := 0 to |messages|
        invariant searchService.index == DeliverAll(old(searchService.index), messages[..i])
        invariant old(searchService.Coherent()) &&
                  (forall j :: 0 <= j < i ==> working[j] >= 2 * searchService.cache.rounds) ==>
                    searchService.Coherent()
      {
        ProcessMessage(messages[i], working[i]);
        DeliverAllAppend(old(searchService.index), messages[..i], messages[i]);
        assert messages[..i + 1] == messages[..i] + [messages[i]];
      }
      assert messages[..|messages|] == messages;
    }
  }
}
