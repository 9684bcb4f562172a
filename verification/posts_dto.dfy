/** The request shapes of the posts endpoints and the rules their
    validators enforce: the create-post body and the search query, with the
    coercions applied to query parameters before validation. */
module PostsDto {
  import opened Outcomes
  import opened Text

  /** A post payload as a JavaScript object: every key may be absent.
      `published` is not a declared property of the create-post body, so no
      validator reads it; it is kept so that the creation default can be
      stated against whatever the client sent. */
  datatype PostData = PostData(
    title: Option<string>,
    content: Option<string>,
    authorId: Option<int>,
    published: Option<bool>)

  /** `@IsPositive()` on a number. */
  predicate IsPositive(v: Option<int>) {
    v.Some? && v.value > 0
  }

  /** The rules of each create-post property. Only `authorId` carries
      `@IsOptional()`, which lets an absent key through. */
  predicate TitleValid(d: PostData) {
    IsNotEmpty(d.title) && HasMaxLength(d.title)
  }

  predicate ContentValid(d: PostData) {
    HasMaxLength(d.content)
  }

  predicate AuthorIdValid(d: PostData) {
    d.authorId.None? || IsPositive(d.authorId)
  }

  predicate ValidPost(d: PostData) {
    TitleValid(d) && ContentValid(d) && AuthorIdValid(d)
  }

  /** The names of the create-post properties whose rules fail, in
      declaration order. */
  function PostViolations(d: PostData): (fields: seq<string>)
    ensures "title" in fields <==> !TitleValid(d)
    ensures "content" in fields <==> !ContentValid(d)
    ensures "authorId" in fields <==> !AuthorIdValid(d)
    ensures fields == [] <==> ValidPost(d)
    ensures forall f :: f in fields ==> f in ["title", "content", "authorId"]
  {
    (if TitleValid(d) then [] else ["title"])
    + (if ContentValid(d) then [] else ["content"])
    + (if AuthorIdValid(d) then [] else ["authorId"])
  }

  /** The validation pipe on a create-post body: a valid body reaches the
      handler unchanged, an invalid one is answered with the failing
      properties. */
  function ValidateCreatePost(d: PostData): (r: Result<PostData>)
    ensures r.Ok? <==> ValidPost(d)
    ensures r.Ok? ==> r.value == d
    ensures r.Err? ==> r.error.Invalid? && |r.error.fields| > 0
    ensures r.Err? ==> forall f :: f in r.error.fields <==> f in PostViolations(d)
  {
    var fields := PostViolations(d);
    if fields == [] then Ok(d) else Err(Invalid(fields))
  }

  /** The empty body `{}` fails on `title` and on `content`. */
  lemma EmptyPostRejected()
    ensures ValidateCreatePost(PostData(None, None, None, None)) == Err(Invalid(["title", "content"]))
  {
  }

  /** The raw query parameters of `GET /posts`, as strings. */
  datatype SearchQuery = SearchQuery(
    q: Option<string>,
    authorId: Option<string>,
    published: Option<string>)

  /** A JavaScript number as far as this model needs it: a whole number or
      NaN. */
  datatype JsNumber = NaN | Num(n: int)

  /** The search query after the class transformer has run and before the
      validators do. */
  datatype SearchPostsDto = SearchPostsDto(
    q: Option<string>,
    authorId: Option<JsNumber>,
    published: Option<bool>)

  /** `Number(s)`: the empty string is 0, a string of decimal digits is its
      value, and every other string is NaN here. */
  function ToNumber(s: string): (r: JsNumber)
    ensures s == "" ==> r == Num(0)
    ensures r.Num? && s != "" ==> AllDigits(s) && ParseDecimal(s) == Some(r.n)
    ensures AllDigits(s) && s != "" ==> r.Num?
  {
    if s == "" then Num(0)
    else match ParseDecimal(s)
      case Some(v) => Num(v)
      case None => NaN
  }

  /** The transform of `published`: exactly the string "true" is true. */
  function CoercePublished(s: string): (b: bool)
  {
    s == "true"
  }

  lemma CoercePublishedExamples()
    ensures CoercePublished("true")
    ensures !CoercePublished("false") && !CoercePublished("1")
    ensures !CoercePublished("True") && !CoercePublished("")
  {
  }

  /** The class transformer on a search query: `authorId` goes through
      `Number`, a present `published` goes through the "true" test, and `q`
      is kept as it is. Absent parameters stay absent. */
  function TransformSearch(raw: SearchQuery): (dto: SearchPostsDto)
    ensures dto.q == raw.q
    ensures dto.authorId.Some? <==> raw.authorId.Some?
    ensures raw.authorId.Some? ==> dto.authorId.value == ToNumber(raw.authorId.value)
    ensures dto.published.Some? <==> raw.published.Some?
    ensures raw.published.Some? ==> (dto.published.value <==> raw.published.value == "true")
  {
    SearchPostsDto(
      raw.q,
      match raw.authorId
      case None => None
      case Some(s) => Some(ToNumber(s)),
      match raw.published
      case None => None
      case Some(s) => Some(CoercePublished(s)))
  }

  /** `q`: `@IsOptional() @IsNotEmpty()`. */
  predicate QueryValid(dto: SearchPostsDto) {
    dto.q.None? || dto.q.value != ""
  }

  /** `authorId`: `@IsOptional() @IsPositive()` on the coerced number; NaN
      is not positive. */
  predicate SearchAuthorValid(dto: SearchPostsDto) {
    match dto.authorId
    case None => true
    case Some(NaN) => false
    case Some(Num(n)) => n > 0
  }

  predicate ValidSearch(dto: SearchPostsDto) {
    QueryValid(dto) && SearchAuthorValid(dto)
  }

  /** The validation pipe on a search query: transform, then validate. */
  function ValidateSearch(raw: SearchQuery): (r: Result<SearchPostsDto>)
    ensures r.Ok? <==> ValidSearch(TransformSearch(raw))
    ensures r.Ok? ==> r.value == TransformSearch(raw)
    ensures r.Err? ==> r.error.Invalid? && |r.error.fields| > 0
    ensures r.Err? ==> ("q" in r.error.fields <==> !QueryValid(TransformSearch(raw)))
    ensures r.Err? ==> ("authorId" in r.error.fields <==> !SearchAuthorValid(TransformSearch(raw)))
    ensures r.Err? ==> forall f :: f in r.error.fields ==> f in ["q", "authorId"]
  {
    var dto := TransformSearch(raw);
    var fields := (if QueryValid(dto) then [] else ["q"])
      + (if SearchAuthorValid(dto) then [] else ["authorId"]);
    if fields == [] then Ok(dto) else Err(Invalid(fields))
  }

  /** After validation, a present `q` is non-empty and a present `authorId`
      is a positive number. */
  lemma {:induction false} ValidatedSearchShape(raw: SearchQuery)
    requires ValidateSearch(raw).Ok?
    ensures var dto := ValidateSearch(raw).value;
      && (raw.q.Some? ==> dto.q == raw.q && raw.q.value != "")
      && (raw.authorId.Some? ==> exists n :: n > 0 && dto.authorId == Some(Num(n)))
  {
  }

  /** A positive id rendered in decimal, as a query string carries it, is
      read back as that id. */
  lemma {:induction false} SearchAuthorRoundTrip(n: nat)
    requires n > 0
    ensures ValidateSearch(SearchQuery(None, Some(ShowDecimal(n)), None))
            == Ok(SearchPostsDto(None, Some(Num(n)), None))
  {
    ParseShowDecimal(n);
  }
}
