/** The post repository over an in-memory store: how a search DTO becomes a
    `where` predicate, what that predicate means for a stored post, and the
    create and find-by-id operations the ORM performs. */
module PostsRepository {
  import opened Outcomes
  import opened Text
  import opened PostsDto

  /** A stored post: the backend-assigned id and the object it was created
      from. */
  datatype Post = Post(id: int, data: PostData)

  /** The `mode` of a `contains` filter; the repository only ever asks for
      `'insensitive'`. */
  datatype Mode = Insensitive

  datatype TextField = Title | Content

  /** One `{ <field>: { contains, mode } }` entry of an `OR` list. */
  datatype TextClause = TextClause(field: TextField, contains: string, mode: Mode)

  /** A `where` object with its three optional keys: `OR`, `authorId` and
      `published`. */
  datatype Where = Where(
    or: Option<seq<TextClause>>,
    authorId: Option<int>,
    published: Option<bool>)

  /** The `where` object that matches every row. */
  const MatchAll := Where(None, None, None)

  /** JavaScript truthiness of an optional number; for an optional string
      it is `IsNotEmpty`. */
  predicate TruthyNumber(v: Option<JsNumber>) {
    v.Some? && v.value.Num? && v.value.n != 0
  }

  /** The two text clauses a search term produces, title first. */
  function TermClauses(q: string): seq<TextClause> {
    [TextClause(Title, q, Insensitive), TextClause(Content, q, Insensitive)]
  }

  /** The predicate built from a search DTO by three conditional spreads:
      `q` and `authorId` are checked for truthiness, `published` against
      `undefined`. */
  function BuildWhere(f: SearchPostsDto): (w: Where)
    ensures w.or.Some? <==> IsNotEmpty(f.q)
    ensures w.or.Some? ==> w.or.value == TermClauses(f.q.value)
    ensures w.authorId.Some? <==> TruthyNumber(f.authorId)
    ensures w.authorId.Some? ==> f.authorId == Some(Num(w.authorId.value))
    ensures w.published == f.published
  {
    Where(
      if IsNotEmpty(f.q) then Some(TermClauses(f.q.value)) else None,
      if TruthyNumber(f.authorId) then Some(f.authorId.value.n) else None,
      f.published)
  }

  /** A text clause holds when the column is not null and contains the
      needle in the clause's mode. */
  predicate ClauseHolds(c: TextClause, p: Post) {
    var column := if c.field == Title then p.data.title else p.data.content;
    column.Some? && ContainsInsensitive(column.value, c.contains)
  }

  /** The meaning of a `where` object for one row: every present key holds,
      and an `OR` list holds when one of its clauses does. */
  predicate Eval(w: Where, p: Post) {
    && (w.or.None? || exists c :: c in w.or.value && ClauseHolds(c, p))
    && (w.authorId.None? || p.data.authorId == w.authorId)
    && (w.published.None? || p.data.published == w.published)
  }

  /** `findMany({ where })`: the stored rows that satisfy the predicate, in
      store order. */
  function FindMany(store: seq<Post>, w: Where): (r: seq<Post>)
    ensures forall p :: p in r <==> p in store && Eval(w, p)
    ensures forall p {:trigger multiset(r)[p]} :: multiset(r)[p] == if Eval(w, p) then multiset(store)[p] else 0
    ensures |r| <= |store|
    decreases |store|
  {
    if |store| == 0 then []
    else
      assert store == [store[0]] + store[1..];
      (if Eval(w, store[0]) then [store[0]] else []) + FindMany(store[1..], w)
  }

  /** Filtering by two predicates in turn is filtering by a predicate that
      holds exactly when both do. */
  lemma {:induction false} FindManyComposes(store: seq<Post>, w1: Where, w2: Where, w: Where)
    requires forall p :: Eval(w, p) <==> Eval(w1, p) && Eval(w2, p)
    ensures FindMany(FindMany(store, w1), w2) == FindMany(store, w)
    decreases |store|
  {
    if |store| > 0 {
      FindManyComposes(store[1..], w1, w2, w);
      var rest := FindMany(store[1..], w1);
      if Eval(w1, store[0]) {
        assert FindMany(store, w1) == [store[0]] + rest;
        assert ([store[0]] + rest)[1..] == rest;
      } else {
        assert FindMany(store, w1) == rest;
      }
    }
  }

  /** The empty predicate returns the whole store, in order. */
  lemma {:induction false} FindManyMatchAll(store: seq<Post>)
    ensures FindMany(store, MatchAll) == store
    decreases |store|
  {
    if |store| > 0 {
      FindManyMatchAll(store[1..]);
      assert [store[0]] + store[1..] == store;
    }
  }

  /** No two stored posts share an id (the primary key). */
  predicate UniqueIds(store: seq<Post>) {
    forall i, j :: 0 <= i < j < |store| ==> store[i].id != store[j].id
  }

  /** `id` is not the id of any stored post. */
  predicate IdFresh(store: seq<Post>, id: int) {
    forall p :: p in store ==> p.id != id
  }

  /** `findUnique({ where: { id } })`: the stored post with exactly that id,
      or nothing. */
  function FindById(store: seq<Post>, id: int): (r: Option<Post>)
    ensures r.None? <==> IdFresh(store, id)
    ensures r.Some? ==> r.value in store && r.value.id == id
    decreases |store|
  {
    if |store| == 0 then None
    else if store[0].id == id then Some(store[0])
    else FindById(store[1..], id)
  }

  /** Under unique ids the lookup finds every stored post by its id. */
  lemma {:induction false} FindByIdFindsStored(store: seq<Post>, p: Post)
    requires UniqueIds(store)
    requires p in store
    ensures FindById(store, p.id) == Some(p)
    decreases |store|
  {
  }

  /** The outcome of a create: the stored record and the new store. */
  datatype Created = Created(post: Post, store: seq<Post>)

  /** `create({ data })` with a backend-chosen fresh id: the object is stored
      unchanged under that id, after every existing row. */
  function Create(store: seq<Post>, data: PostData, newId: int): (r: Created)
    requires IdFresh(store, newId)
    ensures r.post.id == newId && r.post.data == data
    ensures |r.store| == |store| + 1 && r.store[..|store|] == store
    ensures r.store[|store|] == r.post
    ensures UniqueIds(store) ==> UniqueIds(r.store)
  {
    var post := Post(newId, data);
    Created(post, store + [post])
  }

  /** A created post is found again by its id, unchanged. */
  lemma CreateThenFind(store: seq<Post>, data: PostData, newId: int)
    requires IdFresh(store, newId)
    ensures FindById(Create(store, data, newId).store, newId) == Some(Post(newId, data))
  {
  }
}
