/** The post service: the creation default and the two pass-through
    queries. */
module PostsService {
  import opened Outcomes
  import opened PostsDto
  import Repo = PostsRepository

  /** `{ ...post, published: false }`: the payload with `published`
      overwritten and every other key kept. */
  function WithDefaults(d: PostData): (r: PostData)
    ensures r.published == Some(false)
    ensures r.title == d.title && r.content == d.content && r.authorId == d.authorId
  {
    d.(published := Some(false))
  }

  /** Applying the default twice is applying it once. */
  lemma WithDefaultsIdempotent(d: PostData)
    ensures WithDefaults(WithDefaults(d)) == WithDefaults(d)
  {
  }

  /** Creating a post stores the defaulted payload: `published` is false
      whatever the client sent, and nothing else differs from the
      payload. */
  function Create(store: seq<Repo.Post>, post: PostData, newId: int): (r: Repo.Created)
    requires Repo.IdFresh(store, newId)
    ensures r.post.id == newId
    ensures r.post.data.published == Some(false)
    ensures r.post.data.title == post.title
    ensures r.post.data.content == post.content
    ensures r.post.data.authorId == post.authorId
    ensures |r.store| == |store| + 1 && r.store[..|store|] == store && r.store[|store|] == r.post
  {
    Repo.Create(store, WithDefaults(post), newId)
  }

  /** Lookup by id, as the repository answers it. */
  function FindById(store: seq<Repo.Post>, id: int): (r: Option<Repo.Post>)
    ensures r.None? <==> Repo.IdFresh(store, id)
    ensures r.Some? ==> r.value in store && r.value.id == id
  {
    Repo.FindById(store, id)
  }

  /** Search: the stored posts that satisfy the predicate built from the
      filters, no more and no fewer. */
  function Search(store: seq<Repo.Post>, filters: SearchPostsDto): (r: seq<Repo.Post>)
    ensures forall p :: p in r <==> p in store && Repo.Eval(Repo.BuildWhere(filters), p)
    ensures forall p {:trigger multiset(r)[p]} ::
              multiset(r)[p] == if Repo.Eval(Repo.BuildWhere(filters), p) then multiset(store)[p] else 0
  {
    Repo.FindMany(store, Repo.BuildWhere(filters))
  }
}
