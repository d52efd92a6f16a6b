/** The Elasticsearch query a search request is turned into, and the paging of its results. */
module SearchQuery {
  import opened Common

  datatype Request = Request(
    query: Option<string>, genres: Option<seq<string>>, yearFrom: Option<nat>, yearTo: Option<nat>,
    ratingFrom: Option<real>, ratingTo: Option<real>, ageRating: Option<seq<string>>, publishedOnly: bool,
    page: nat, size: nat)

  /** The fields of an indexed movie that a search can look at; `text` is whatever full-text matching reads. */
  datatype Doc = Doc(
    text: string, genreSlugs: seq<string>, year: Option<int>, rating: Option<real>, ageRating: Option<string>,
    isPublished: bool)

  /** Full-text matching is left abstract. */
  type TextMatch = (string, Doc) -> bool

  datatype Clause =
    | Term(field: string, flag: bool)
    | MultiMatch(query: string)
    | Nested(path: string, inner: Clause)
    | Terms(field: string, values: seq<string>)
    | Range(field: string, gte: Option<real>, lte: Option<real>)

  datatype SortKey = Desc(field: string)

  datatype EsQuery = EsQuery(must: seq<Clause>, filter: seq<Clause>, sort: seq<SortKey>)

  // ----- What the query language means -----

  function NumberField(d: Doc, field: string): Option<real> {
    if field == "year" then (if d.year.Some? then Some(d.year.value as real) else None)
    else if field == "rating" then d.rating
    else None
  }

  /** A clause inside a nested query sees one nested object at a time. */
  predicate HoldsForGenre(c: Clause, slug: string) {
    c.Terms? && c.field == "genres.slug" && slug in c.values
  }

  predicate Holds(c: Clause, m: TextMatch, d: Doc) {
    match c
    case Term(field, flag) => field == "is_published" && d.isPublished == flag
    case MultiMatch(query) => m(query, d)
    case Nested(path, inner) => path == "genres" && exists g :: g in d.genreSlugs && HoldsForGenre(inner, g)
    case Terms(field, values) => field == "age_rating" && d.ageRating.Some? && d.ageRating.value in values
    case Range(field, gte, lte) =>
      var x := NumberField(d, field);
      x.Some? && (gte.Some? ==> gte.value <= x.value) && (lte.Some? ==> x.value <= lte.value)
  }

  predicate Matches(q: EsQuery, m: TextMatch, d: Doc) {
    (forall c :: c in q.must ==> Holds(c, m, d)) && (forall c :: c in q.filter ==> Holds(c, m, d))
  }

  // ----- The builder -----

  /** Python truth: an absent or empty value, and a zero, all read as not given. */
  predicate GivenText(o: Option<string>) { o.Some? && o.value != "" }
  predicate GivenList(o: Option<seq<string>>) { o.Some? && o.value != [] }
  predicate GivenInt(o: Option<nat>) { o.Some? && o.value != 0 }
  predicate GivenReal(o: Option<real>) { o.Some? && o.value != 0.0 }

  function IntBound(o: Option<nat>): Option<real> {
    if GivenInt(o) then Some(o.value as real) else None
  }

  function RealBound(o: Option<real>): Option<real> {
    if GivenReal(o) then o else None
  }

  function When(given: bool, c: Clause): seq<Clause> {
    if given then [c] else []
  }

  function MustClauses(req: Request): seq<Clause> {
    if GivenText(req.query) then [MultiMatch(req.query.value)] else []
  }

  function PublishedClauses(req: Request): seq<Clause> {
    When(req.publishedOnly, Term("is_published", true))
  }

  function GenreClauses(req: Request): seq<Clause> {
    if GivenList(req.genres) then [Nested("genres", Terms("genres.slug", req.genres.value))] else []
  }

  function YearClauses(req: Request): seq<Clause> {
    When(GivenInt(req.yearFrom) || GivenInt(req.yearTo), Range("year", IntBound(req.yearFrom), IntBound(req.yearTo)))
  }

  function RatingClauses(req: Request): seq<Clause> {
    When(GivenReal(req.ratingFrom) || GivenReal(req.ratingTo),
         Range("rating", RealBound(req.ratingFrom), RealBound(req.ratingTo)))
  }

  function AgeClauses(req: Request): seq<Clause> {
    if GivenList(req.ageRating) then [Terms("age_rating", req.ageRating.value)] else []
  }

  function FilterClauses(req: Request): seq<Clause> {
    PublishedClauses(req) + GenreClauses(req) + YearClauses(req) + RatingClauses(req) + AgeClauses(req)
  }

  function QueryOf(req: Request): EsQuery {
    EsQuery(MustClauses(req), FilterClauses(req), if GivenText(req.query) then [] else [Desc("rating"), Desc("year")])
  }

  // ----- What the request asks for -----

  /** The movies a request asks for, in its own fields. What is absent, empty or zero asks for nothing; a movie
      without a year or a rating falls outside any bound on it. */
  predicate Wanted(req: Request, m: TextMatch, d: Doc) {
    && (req.publishedOnly ==> d.isPublished)
    && (req.query.Some? && req.query.value != "" ==> m(req.query.value, d))
    && (req.genres.Some? && req.genres.value != [] ==> exists g :: g in d.genreSlugs && g in req.genres.value)
    && (req.yearFrom.Some? && req.yearFrom.value != 0 ==> d.year.Some? && req.yearFrom.value <= d.year.value)
    && (req.yearTo.Some? && req.yearTo.value != 0 ==> d.year.Some? && d.year.value <= req.yearTo.value)
    && (req.ratingFrom.Some? && req.ratingFrom.value != 0.0 ==>
          d.rating.Some? && req.ratingFrom.value <= d.rating.value)
    && (req.ratingTo.Some? && req.ratingTo.value != 0.0 ==> d.rating.Some? && d.rating.value <= req.ratingTo.value)
    && (req.ageRating.Some? && req.ageRating.value != [] ==>
          d.ageRating.Some? && d.ageRating.value in req.ageRating.value)
  }

  ghost predicate AllHold(cs: seq<Clause>, m: TextMatch, d: Doc) {
    forall c :: c in cs ==> Holds(c, m, d)
  }

  lemma AllHoldConcat(a: seq<Clause>, b: seq<Clause>, m: TextMatch, d: Doc)
    ensures AllHold(a + b, m, d) <==> AllHold(a, m, d) && AllHold(b, m, d)
  {
    if AllHold(a + b, m, d) {
      assert forall c :: c in a || c in b ==> c in a + b;
    }
  }

  lemma NestedGenres(values: seq<string>, m: TextMatch, d: Doc)
    ensures Holds(Nested("genres", Terms("genres.slug", values)), m, d) <==>
              exists g :: g in d.genreSlugs && g in values
  {
    var inner := Terms("genres.slug", values);
    assert forall g :: HoldsForGenre(inner, g) <==> g in values;
  }

  lemma OneHolds(c: Clause, m: TextMatch, d: Doc)
    ensures AllHold([c], m, d) <==> Holds(c, m, d)
    ensures AllHold([], m, d)
  {
    assert c in [c];
  }

  lemma ListClausesMean(req: Request, m: TextMatch, d: Doc)
    ensures AllHold(GenreClauses(req), m, d) <==>
              (req.genres.Some? && req.genres.value != [] ==> exists g :: g in d.genreSlugs && g in req.genres.value)
    ensures AllHold(AgeClauses(req), m, d) <==>
              (req.ageRating.Some? && req.ageRating.value != [] ==>
                 d.ageRating.Some? && d.ageRating.value in req.ageRating.value)
    ensures AllHold(MustClauses(req), m, d) <==>
              (req.query.Some? && req.query.value != "" ==> m(req.query.value, d))
  {
    if GivenList(req.genres) {
      OneHolds(Nested("genres", Terms("genres.slug", req.genres.value)), m, d);
      NestedGenres(req.genres.value, m, d);
    }
    if GivenList(req.ageRating) {
      OneHolds(Terms("age_rating", req.ageRating.value), m, d);
    }
    if GivenText(req.query) {
      OneHolds(MultiMatch(req.query.value), m, d);
    }
  }

  lemma RangeClausesMean(req: Request, m: TextMatch, d: Doc)
    ensures AllHold(PublishedClauses(req), m, d) <==> (req.publishedOnly ==> d.isPublished)
    ensures AllHold(YearClauses(req), m, d) <==>
              && (req.yearFrom.Some? && req.yearFrom.value != 0 ==>
                    d.year.Some? && req.yearFrom.value <= d.year.value)
              && (req.yearTo.Some? && req.yearTo.value != 0 ==> d.year.Some? && d.year.value <= req.yearTo.value)
    ensures AllHold(RatingClauses(req), m, d) <==>
              && (req.ratingFrom.Some? && req.ratingFrom.value != 0.0 ==>
                    d.rating.Some? && req.ratingFrom.value <= d.rating.value)
              && (req.ratingTo.Some? && req.ratingTo.value != 0.0 ==>
                    d.rating.Some? && d.rating.value <= req.ratingTo.value)
  {
    OneHolds(Term("is_published", true), m, d);
    OneHolds(Range("year", IntBound(req.yearFrom), IntBound(req.yearTo)), m, d);
    OneHolds(Range("rating", RealBound(req.ratingFrom), RealBound(req.ratingTo)), m, d);
  }

  lemma FiltersSplit(req: Request, m: TextMatch, d: Doc)
    ensures AllHold(FilterClauses(req), m, d) <==>
              && AllHold(PublishedClauses(req), m, d) && AllHold(GenreClauses(req), m, d)
              && AllHold(YearClauses(req), m, d) && AllHold(RatingClauses(req), m, d) && AllHold(AgeClauses(req), m, d)
  {
    var p, g, y, r, a :=
      PublishedClauses(req), GenreClauses(req), YearClauses(req), RatingClauses(req), AgeClauses(req);
    AllHoldConcat(p, g, m, d);
    AllHoldConcat(p + g, y, m, d);
    AllHoldConcat(p + g + y, r, m, d);
    AllHoldConcat(p + g + y + r, a, m, d);
  }

  /** For every request and document, the built query and the request agree on the answer. */
  lemma QueryMeansRequest(req: Request, m: TextMatch, d: Doc)
    ensures Matches(QueryOf(req), m, d) <==> Wanted(req, m, d)
  {
    assert Matches(QueryOf(req), m, d) <==> AllHold(MustClauses(req), m, d) && AllHold(FilterClauses(req), m, d);
    FiltersSplit(req, m, d);
    ListClausesMean(req, m, d);
    RangeClausesMean(req, m, d);
  }

  method BuildSearchQuery(req: Request) returns (q: EsQuery)
    ensures q == QueryOf(req)
    ensures forall m: TextMatch, d: Doc :: Matches(q, m, d) <==> Wanted(req, m, d)
    ensures q.sort == if req.query.Some? && req.query.value != "" then [] else [Desc("rating"), Desc("year")]
  {
    var must: seq<Clause>, filter: seq<Clause> := [], [];
    if req.publishedOnly {
      filter := filter + [Term("is_published", true)];
    }
    assert filter == PublishedClauses(req);
    if GivenText(req.query) {
      must := must + [MultiMatch(req.query.value)];
    }
    assert must == MustClauses(req);
    if GivenList(req.genres) {
      filter := filter + [Nested("genres", Terms("genres.slug", req.genres.value))];
    }
    assert filter == PublishedClauses(req) + GenreClauses(req);
    if GivenInt(req.yearFrom) || GivenInt(req.yearTo) {
      var gte: Option<real>, lte: Option<real> := None, None;
      if GivenInt(req.yearFrom) { gte := Some(req.yearFrom.value as real); }
      if GivenInt(req.yearTo) { lte := Some(req.yearTo.value as real); }
      filter := filter + [Range("year", gte, lte)];
    }
    assert filter == PublishedClauses(req) + GenreClauses(req) + YearClauses(req);
    if GivenReal(req.ratingFrom) || GivenReal(req.ratingTo) {
      var gte: Option<real>, lte: Option<real> := None, None;
      if GivenReal(req.ratingFrom) { gte := req.ratingFrom; }
      if GivenReal(req.ratingTo) { lte := req.ratingTo; }
      filter := filter + [Range("rating", gte, lte)];
    }
    assert filter == PublishedClauses(req) + GenreClauses(req) + YearClauses(req) + RatingClauses(req);
    if GivenList(req.ageRating) {
      filter := filter + [Terms("age_rating", req.ageRating.value)];
    }
    assert filter == FilterClauses(req);
    if must == [] {
      q := EsQuery([], filter, [Desc("rating"), Desc("year")]);
    } else {
      q := EsQuery(must, filter, []);
    }
    forall m: TextMatch, d: Doc
      ensures Matches(q, m, d) <==> Wanted(req, m, d)
    {
      QueryMeansRequest(req, m, d);
    }
  }

  // ----- Paging -----

  /** The hits the index returns for `from = (page - 1) * size`. */
  function Page<T>(results: seq<T>, page: nat, size: nat): seq<T>
    requires page >= 1 && size >= 1
  {
    var from: nat := (page - 1) * size;
    if from >= |results| then []
    else if from + size >= |results| then results[from..]
    else results[from..from + size]
  }

  /** `math.ceil(total / size)`. */
  function TotalPages(total: nat, size: nat): nat
    requires size >= 1
  {
    (total + size - 1) / size
  }

  function Pages<T>(results: seq<T>, n: nat, size: nat): seq<T>
    requires size >= 1
  {
    if n == 0 then [] else Pages(results, n - 1, size) + Page(results, n, size)
  }

  lemma {:induction false} PagesArePrefix<T>(results: seq<T>, n: nat, size: nat)
    requires size >= 1
    ensures Pages(results, n, size) == if n * size >= |results| then results else results[..n * size]
  {
    if n > 0 {
      PagesArePrefix(results, n - 1, size);
      assert n * size == (n - 1) * size + size;
    }
  }

  lemma CeilingIsExact(total: nat, size: nat)
    requires size >= 1
    ensures TotalPages(total, size) * size >= total
    ensures TotalPages(total, size) > 0 ==> (TotalPages(total, size) - 1) * size < total
  {
    var n := TotalPages(total, size);
    assert n * size + (total + size - 1) % size == total + size - 1;
    assert (n - 1) * size == n * size - size;
  }

  lemma PageIsEmpty<T>(results: seq<T>, page: nat, size: nat)
    requires size >= 1 && page >= 1
    ensures Page(results, page, size) == [] <==> (page - 1) * size >= |results|
  {
    var from: nat := (page - 1) * size;
    if from < |results| {
      assert Page(results, page, size)[0] == results[from];
    }
  }

  lemma MulMonotone(a: nat, b: nat, size: nat)
    requires a <= b
    ensures a * size <= b * size
  {}

  /** Reading pages 1 to total_pages gives every result exactly once, in order; each of them has something on it, and
      every later page is empty. */
  lemma PagesPartition<T>(results: seq<T>, size: nat, page: nat)
    requires size >= 1 && page >= 1
    ensures Pages(results, TotalPages(|results|, size), size) == results
    ensures Page(results, page, size) == [] <==> page > TotalPages(|results|, size)
  {
    var n := TotalPages(|results|, size);
    CeilingIsExact(|results|, size);
    PagesArePrefix(results, n, size);
    assert n * size == |results| ==> results[..n * size] == results;
    PageIsEmpty(results, page, size);
    if page > n {
      MulMonotone(n, page - 1, size);
    } else {
      MulMonotone(page - 1, n - 1, size);
    }
  }

  // ----- The index's cap on deep results -----

  /** Elasticsearch reports at most this many hits and refuses to page beyond them. */
  const CAP := 10000

  /** What the service answers for one page; `None` is a search the index refused. */
  function SearchPage<T>(results: seq<T>, page: nat, size: nat): Option<seq<T>>
    requires page >= 1 && size >= 1
  {
    if page * size > CAP then None else Some(Page(results, page, size))
  }

  function ReportedPages(total: nat, size: nat): nat
    requires size >= 1
  {
    TotalPages(if total <= CAP then total else CAP, size)
  }

  /** A reader who follows the reported number of pages gets them all, and with them every result once and in order. */
  ghost predicate ReadsAll<T>(results: seq<T>, size: nat)
    requires size >= 1
  {
    var n := ReportedPages(|results|, size);
    (forall page: nat :: 1 <= page <= n ==> SearchPage(results, page, size).Some?) && Pages(results, n, size) == results
  }

  lemma FewerPagesFit(page: nat, n: nat, size: nat)
    requires page <= n
    ensures page * size <= n * size
  {}

  /** That is so exactly when the last page ends within the cap. */
  lemma ReadsAllIffCapped<T>(results: seq<T>, size: nat)
    requires size >= 1
    ensures ReadsAll(results, size) <==> TotalPages(|results|, size) * size <= 10000
  {
    var n, all := ReportedPages(|results|, size), TotalPages(|results|, size);
    CeilingIsExact(|results|, size);
    CeilingIsExact(if |results| <= CAP then |results| else CAP, size);
    PagesArePrefix(results, n, size);
    if all * size <= CAP {
      assert n == all;
      PagesPartition(results, size, 1);
      forall page: nat | 1 <= page <= n
        ensures SearchPage(results, page, size).Some?
      {
        FewerPagesFit(page, n, size);
      }
    } else if n >= 1 {
      assert SearchPage(results, n, size).Some? <==> n * size <= CAP;
      if n * size <= CAP {
        assert |results| > n * size;
        assert |Pages(results, n, size)| == n * size;
      }
    }
  }
}
