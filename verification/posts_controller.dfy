/** The posts endpoints, each composed of the validation pipe and the
    handler: `POST /posts`, `GET /posts/:id` and `GET /posts`. Also the
    end-to-end properties of search that follow from validation and
    predicate construction together. */
module PostsController {
  import opened Outcomes
  import opened Text
  import opened PostsDto
  import Repo = PostsRepository
  import Service = PostsService

  /** The response and the store after a request that may write. */
  datatype CreateOutcome = CreateOutcome(response: Result<int>, store: seq<Repo.Post>)

  /** `POST /posts`: an invalid body is rejected with the failing
      properties and nothing is stored; a valid one is stored unpublished
      and answered with `{ postId }`, the id of the new record. */
  function Create(store: seq<Repo.Post>, body: PostData, newId: int): (r: CreateOutcome)
    requires Repo.IdFresh(store, newId)
    ensures r.response.Ok? <==> ValidPost(body)
    ensures r.response.Err? ==> r.store == store
    ensures r.response.Err? ==> r.response.error == Invalid(PostViolations(body))
    ensures r.response.Ok? ==> r.response.value == newId
    ensures r.response.Ok? ==> r.store == store + [Repo.Post(newId, body.(published := Some(false)))]
  {
    match ValidateCreatePost(body)
    case Err(e) => CreateOutcome(Err(e), store)
    case Ok(dto) =>
      var created := Service.Create(store, dto, newId);
      assert created.store == store + [created.post];
      CreateOutcome(Ok(created.post.id), created.store)
  }

  /** The empty body is rejected and the store is left as it was. */
  lemma EmptyBodyCreatesNothing(store: seq<Repo.Post>, newId: int)
    requires Repo.IdFresh(store, newId)
    ensures Create(store, PostData(None, None, None, None), newId)
            == CreateOutcome(Err(Invalid(["title", "content"])), store)
  {
  }

  /** `GET /posts/:id`: the stored post with that id, unchanged, or
      NotFound when there is none. */
  function Get(store: seq<Repo.Post>, id: int): (r: Result<Repo.Post>)
    ensures r.Err? <==> Repo.IdFresh(store, id)
    ensures r.Err? ==> r.error == NotFound
    ensures r.Ok? ==> r.value in store && r.value.id == id
  {
    match Service.FindById(store, id)
    case None => Err(NotFound)
    case Some(post) => Ok(post)
  }

  /** A post created through the endpoint is served back by `GET`, with
      `published` false. */
  lemma CreateThenGet(store: seq<Repo.Post>, body: PostData, newId: int)
    requires Repo.IdFresh(store, newId)
    requires ValidPost(body)
    ensures var c := Create(store, body, newId);
      Get(c.store, c.response.value) == Ok(Repo.Post(newId, body.(published := Some(false))))
  {
  }

  /** `GET /posts`: validation of the query, then the service's search
      result unchanged. */
  function Search(store: seq<Repo.Post>, query: SearchQuery): (r: Result<seq<Repo.Post>>)
    ensures r.Ok? <==> ValidSearch(TransformSearch(query))
    ensures r.Err? ==> r.error.Invalid?
    ensures r.Ok? ==> forall p :: p in r.value <==>
      p in store && Repo.Eval(Repo.BuildWhere(TransformSearch(query)), p)
    ensures r.Ok? ==> forall p {:trigger multiset(r.value)[p]} ::
                        multiset(r.value)[p] ==
                        if Repo.Eval(Repo.BuildWhere(TransformSearch(query)), p) then multiset(store)[p] else 0
  {
    var filters :- ValidateSearch(query);
    Ok(Service.Search(store, filters))
  }

  /** After validation each key of the predicate appears exactly when its
      query parameter is present: a present `q` is non-empty, a present
      `authorId` is positive, and `published` is compared with
      `undefined`. */
  lemma {:induction false} ClausesFollowPresence(query: SearchQuery)
    requires ValidateSearch(query).Ok?
    ensures var w := Repo.BuildWhere(ValidateSearch(query).value);
      && (w.or.Some? <==> query.q.Some?)
      && (w.or.Some? ==> w.or.value == Repo.TermClauses(query.q.value))
      && (w.authorId.Some? <==> query.authorId.Some?)
      && (w.published.Some? <==> query.published.Some?)
      && (w.published.Some? ==> (w.published.value <==> query.published.value == "true"))
  {
  }

  /** `published=false` (and any other string but "true") still yields a
      `published: false` key: the presence test is not a truthiness test. */
  lemma PublishedFalseStillFilters(s: string)
    requires s != "true"
    ensures Repo.BuildWhere(TransformSearch(SearchQuery(None, None, Some(s))))
            == Repo.Where(None, None, Some(false))
  {
  }

  /** The repository's truthiness tests: the empty string and the number 0
      add no key, an absent `published` adds none either. */
  lemma FalsyFiltersAddNoKey()
    ensures Repo.BuildWhere(SearchPostsDto(Some(""), Some(Num(0)), None)) == Repo.MatchAll
    ensures Repo.BuildWhere(SearchPostsDto(None, Some(NaN), None)) == Repo.MatchAll
  {
  }

  /** With no query parameters the predicate is empty and every stored post
      is returned, in store order. */
  lemma {:induction false} NoFiltersReturnsAll(store: seq<Repo.Post>)
    ensures Repo.BuildWhere(TransformSearch(SearchQuery(None, None, None))) == Repo.MatchAll
    ensures Search(store, SearchQuery(None, None, None)) == Ok(store)
  {
    Repo.FindManyMatchAll(store);
  }

  /** Searching by a positive author id sent in decimal builds exactly the
      `{ authorId }` predicate. */
  lemma {:induction false} SearchByAuthorPredicate(n: nat)
    requires n > 0
    ensures ValidateSearch(SearchQuery(None, Some(ShowDecimal(n)), None)).Ok?
    ensures Repo.BuildWhere(ValidateSearch(SearchQuery(None, Some(ShowDecimal(n)), None)).value)
            == Repo.Where(None, Some(n), None)
  {
    SearchAuthorRoundTrip(n);
  }

  /** The filters carried separately: only `q`, only `authorId`, only
      `published`. */
  function OnlyQ(f: SearchPostsDto): SearchPostsDto {
    SearchPostsDto(f.q, None, None)
  }

  function OnlyAuthor(f: SearchPostsDto): SearchPostsDto {
    SearchPostsDto(None, f.authorId, None)
  }

  function OnlyPublished(f: SearchPostsDto): SearchPostsDto {
    SearchPostsDto(None, None, f.published)
  }

  /** The predicate of combined filters holds exactly when the predicate of
      each filter on its own holds. */
  lemma WhereIsConjunction(f: SearchPostsDto, p: Repo.Post)
    ensures Repo.Eval(Repo.BuildWhere(f), p) <==>
      && Repo.Eval(Repo.BuildWhere(OnlyQ(f)), p)
      && Repo.Eval(Repo.BuildWhere(OnlyAuthor(f)), p)
      && Repo.Eval(Repo.BuildWhere(OnlyPublished(f)), p)
  {
  }

  /** The combined search returns exactly the posts every single-filter
      search returns. */
  lemma CombinedIsIntersection(store: seq<Repo.Post>, f: SearchPostsDto, p: Repo.Post)
    ensures p in Service.Search(store, f) <==>
      && p in Service.Search(store, OnlyQ(f))
      && p in Service.Search(store, OnlyAuthor(f))
      && p in Service.Search(store, OnlyPublished(f))
  {
  }

  /** As sequences: filtering by the three single filters in turn gives the
      combined result, in the same order. */
  lemma {:induction false} CombinedIsSuccessiveFiltering(store: seq<Repo.Post>, f: SearchPostsDto)
    ensures Service.Search(Service.Search(Service.Search(store, OnlyQ(f)), OnlyAuthor(f)), OnlyPublished(f))
            == Service.Search(store, f)
  {
    var wq := Repo.BuildWhere(OnlyQ(f));
    var wa := Repo.BuildWhere(OnlyAuthor(f));
    var wp := Repo.BuildWhere(OnlyPublished(f));
    var wqa := Repo.Where(wq.or, wa.authorId, None);
    forall p ensures Repo.Eval(wqa, p) <==> Repo.Eval(wq, p) && Repo.Eval(wa, p) {
    }
    Repo.FindManyComposes(store, wq, wa, wqa);
    forall p ensures Repo.Eval(Repo.BuildWhere(f), p) <==> Repo.Eval(wqa, p) && Repo.Eval(wp, p) {
      WhereIsConjunction(f, p);
    }
    Repo.FindManyComposes(store, wqa, wp, Repo.BuildWhere(f));
  }

  /** The title or the content of `p` contains `q`, ignoring case. */
  predicate TermHolds(p: Repo.Post, q: string) {
    || (p.data.title.Some? && ContainsInsensitive(p.data.title.value, q))
    || (p.data.content.Some? && ContainsInsensitive(p.data.content.value, q))
  }

  /** Every post a term search returns holds the term, case-insensitively,
      in its title or its content; every stored post that does is
      returned. */
  lemma TermSearchSoundAndComplete(store: seq<Repo.Post>, q: string, p: Repo.Post)
    requires q != ""
    ensures var r := Search(store, SearchQuery(Some(q), None, None));
      && r.Ok?
      && (p in r.value <==> (p in store && TermHolds(p, q)))
  {
    var w := Repo.BuildWhere(TransformSearch(SearchQuery(Some(q), None, None)));
    var title := Repo.TextClause(Repo.Title, q, Repo.Insensitive);
    var content := Repo.TextClause(Repo.Content, q, Repo.Insensitive);
    assert w.or == Some([title, content]);
    assert Repo.ClauseHolds(title, p) || Repo.ClauseHolds(content, p) <==> TermHolds(p, q);
  }

  /** The two texts of the end-to-end term-search scenario that hold the
      term "should-return". */
  lemma ScenarioTextsHoldTerm()
    ensures ContainsInsensitive("Post 1 should-return", "should-return")
    ensures ContainsInsensitive("Post 2 content should-return", "should-return")
  {
    var q := "should-return";
    assert OccursAt(Lower(q), Lower("Post 1 should-return"), 7);
    InfixAt(Lower(q), Lower("Post 1 should-return"));
    assert OccursAt(Lower(q), Lower("Post 2 content should-return"), 15);
    InfixAt(Lower(q), Lower("Post 2 content should-return"));
  }

  /** The term-search scenario of the end-to-end suite: one post matches by
      title, one by content, and a third that holds the term nowhere is
      left out; the result keeps store order. */
  lemma {:induction false} TermSearchScenario(p1: Repo.Post, p2: Repo.Post, p3: Repo.Post)
    requires p1.data.title == Some("Post 1 should-return")
    requires p2.data.content == Some("Post 2 content should-return")
    requires !TermHolds(p3, "should-return")
    ensures Search([p1, p2, p3], SearchQuery(Some("should-return"), None, None)) == Ok([p1, p2])
  {
    var q := "should-return";
    ScenarioTextsHoldTerm();
    var w := Repo.Where(Some(Repo.TermClauses(q)), None, None);
    assert Repo.BuildWhere(TransformSearch(SearchQuery(Some(q), None, None))) == w;
    assert Repo.ClauseHolds(w.or.value[0], p1);
    assert Repo.Eval(w, p1);
    assert Repo.ClauseHolds(w.or.value[1], p2);
    assert Repo.Eval(w, p2);
    assert !Repo.Eval(w, p3);
    var store := [p1, p2, p3];
    assert store[1..] == [p2, p3] && store[1..][1..] == [p3] && [p3][1..] == [];
    assert Repo.FindMany([p3], w) == [];
    assert Repo.FindMany([p2, p3], w) == [p2];
    assert Repo.FindMany(store, w) == [p1, p2];
  }

  /** Posts created only through `POST /posts` are never published. */
  predicate NonePublished(store: seq<Repo.Post>) {
    forall p :: p in store ==> p.data.published != Some(true)
  }

  lemma CreateKeepsNonePublished(store: seq<Repo.Post>, body: PostData, newId: int)
    requires Repo.IdFresh(store, newId)
    requires NonePublished(store)
    ensures NonePublished(Create(store, body, newId).store)
  {
  }
}
