# Posts and users service: a functional model

This project models the logic of a small HTTP service with two entities,
users and posts. It covers:

- the validation rules of the request bodies and the search query;
- the coercion of search query parameters;
- how a search query becomes a `where` predicate for the ORM;
- the server-side default that makes every new post unpublished;
- the not-found mapping of post lookup;
- the check-then-insert path that keeps user emails unique.

The database is replaced by in-memory stores: a `seq<Post>` and a
`seq<User>`. Every operation is a pure function from a store and a request
to a response and a new store.

Modules follow the source layout:

| module | file | models |
|---|---|---|
| `Outcomes` | outcomes.dfy | optional values; the errors `Invalid(fields)` (400), `NotFound` (404), `Conflict` (409) |
| `Text` | text.dfy | the 255-character bound, ASCII lower-casing, substring search, decimal numbers |
| `PostsDto` | posts_dto.dfy | `CreatePostDto` rules; `SearchPostsDto` transform and rules |
| `PostsRepository` | posts_repository.dfy | `Post`, the `where` object, its meaning `Eval`, `findMany`, `findUnique`, `create` |
| `PostsService` | posts_service.dfy | the `published: false` default and the pass-through queries |
| `PostsController` | posts_controller.dfy | the three posts endpoints, plus end-to-end search properties |
| `UsersDto` | users_dto.dfy | `CreateUserDto` rules |
| `UsersService` | users_service.dfy | `User`, lookup by email, check-then-insert, list |
| `UsersController` | users_controller.dfy | the users endpoints as a state machine, and runs of requests |

A post payload is modelled as a JavaScript object whose four keys
(`title`, `content`, `authorId`, `published`) may each be absent. This
makes the service's `{ ...post, published: false }` spread a literal
record update. It also lets the model state that the default holds
whatever the client sent.

Validation follows the validator library's rules as the code applies
them:

- `@IsNotEmpty` means present and not `""`.
- `@MaxLength(255)` means present and a string of at most 255 characters.
- `@IsPositive` means a number greater than 0.
- `@IsOptional` lets an absent key skip the other rules.

So a create-post body without `content` is rejected. `content` carries
`@MaxLength` but not `@IsOptional`, and an absent value fails
`@MaxLength`. The repository's `CreatePost` record type marks `content`
optional, and `content` is often described as optional. This model follows
the validators.

In search, `q` and `authorId` are checked for truthiness and `published` is
compared with `undefined`. After validation, every present `q` is
non-empty and every present `authorId` is positive. So each key of the
predicate appears exactly when its query parameter is present
(`ClausesFollowPresence`). A present `published` is true only for the
exact string `"true"`, so `?published=false` still adds `published: false`.

## Model

| member | source | states |
|---|---|---|
| Text.ParseDecimal | src/posts/dto/posts.dto.ts:22-25 | a query string is read as a number exactly when it is a non-empty string of decimal digits |
| Text.LeadingZero | src/posts/dto/posts.dto.ts:23 | a leading zero does not change the number a digit string is read as, so `"007"` reads as 7 |
| Text.ParseShowDecimal | src/posts/dto/posts.dto.ts:23 | reading the decimal rendering of a number gives that number back |
| PostsDto.PostViolations | src/posts/dto/posts.dto.ts:4-15 | a property is reported exactly when its rule fails: `title` when absent, empty or over 255 characters; `content` when absent or over 255; `authorId` when present and not positive; no report exactly when the body is valid |
| PostsDto.ValidateCreatePost | src/posts/dto/posts.dto.ts:4-15 | a body passes unchanged exactly when it is valid; otherwise the error lists exactly the failing properties |
| PostsDto.EmptyPostRejected | src/posts/dto/posts.dto.ts:5-10 | `{}` is rejected on `title` and `content` |
| PostsDto.ToNumber | src/posts/dto/posts.dto.ts:23 | the empty string becomes 0, a digit string becomes its value, and anything else is NaN |
| PostsDto.CoercePublishedExamples | src/posts/dto/posts.dto.ts:28-31 | `"true"` becomes true; `"false"`, `"1"`, `"True"` and `""` become false |
| PostsDto.TransformSearch | src/posts/dto/posts.dto.ts:17-32 | `q` is kept as given; `authorId` goes through `Number`; a present `published` is true iff it is `"true"`; absent parameters stay absent |
| PostsDto.ValidateSearch | src/posts/dto/posts.dto.ts:17-32 | a query passes exactly when a present `q` is non-empty and a present `authorId` is a positive number; otherwise the error names exactly the failing parameters |
| PostsDto.ValidatedSearchShape | src/posts/dto/posts.dto.ts:18-25 | after validation a present `q` is non-empty and a present `authorId` is a positive number |
| PostsDto.SearchAuthorRoundTrip | src/posts/dto/posts.dto.ts:22-25 | a positive author id sent in decimal is validated and read back as that id |
| PostsRepository.BuildWhere | src/posts/posts.repository.ts:24-40 | `OR` appears iff `q` is truthy, holding title-contains then content-contains (both insensitive); `authorId` appears iff it is truthy; `published` appears iff it is not undefined |
| PostsRepository.FindMany | src/posts/posts.repository.ts:25-40 | a stored post is returned iff it satisfies every clause of the predicate, and each matching row comes back exactly as often as it is stored |
| PostsRepository.FindManyComposes | src/posts/posts.repository.ts:25-40 | filtering by two predicates in turn equals filtering by their conjunction |
| PostsRepository.FindManyMatchAll | src/posts/posts.repository.ts:25-40 | the empty predicate returns the whole store in order |
| PostsRepository.FindById | src/posts/posts.repository.ts:20-22 | the lookup returns a stored post with exactly that id, and nothing iff no stored post has it |
| PostsRepository.FindByIdFindsStored | src/posts/posts.repository.ts:20-22 | with unique ids, every stored post is found by its id |
| PostsRepository.Create | src/posts/posts.repository.ts:16-18 | the data is stored unchanged under the fresh id, after every existing row, and ids stay unique |
| PostsRepository.CreateThenFind | src/posts/posts.repository.ts:16-22 | a created post is found again by its id, unchanged |
| PostsService.WithDefaults | src/posts/posts.service.ts:10-13 | `published` becomes false and `title`, `content`, `authorId` are unchanged |
| PostsService.WithDefaultsIdempotent | src/posts/posts.service.ts:10-13 | applying the default twice equals applying it once |
| PostsService.Create | src/posts/posts.service.ts:9-15 | the stored record has `published` false whatever the input carried, and the payload's other keys unchanged |
| PostsService.FindById | src/posts/posts.service.ts:17-19 | the service answers a lookup with the repository's answer |
| PostsService.Search | src/posts/posts.service.ts:21-23 | a stored post is returned iff it satisfies the predicate built from the filters, each matching row exactly as often as it is stored |
| PostsController.Create | src/posts/posts.controller.ts:17-21 | an invalid body is rejected with its failing properties and stores nothing; a valid one is stored unpublished and answered with the new record's id |
| PostsController.EmptyBodyCreatesNothing | src/posts/posts.controller.ts:17-21 | `POST /posts` with `{}` is a validation error and the store is unchanged |
| PostsController.Get | src/posts/posts.controller.ts:23-30 | NotFound iff no stored post has the id; otherwise the stored post with that id, unchanged |
| PostsController.CreateThenGet | src/posts/posts.controller.ts:17-30 | the id answered by a create retrieves the created post, unpublished |
| PostsController.Search | src/posts/posts.controller.ts:32-35 | an invalid query is a validation error; otherwise a stored post is returned iff it satisfies the predicate, each matching row exactly as often as it is stored |
| PostsController.ClausesFollowPresence | src/posts/posts.repository.ts:26-39 | after validation, each predicate key appears iff its query parameter is present, and `published` is true iff the parameter is `"true"` |
| PostsController.PublishedFalseStillFilters | src/posts/posts.repository.ts:36-38 | any `published` other than `"true"` still yields a `published: false` clause |
| PostsController.FalsyFiltersAddNoKey | src/posts/posts.repository.ts:27-35 | an empty `q`, an `authorId` of 0 or NaN, and an absent `published` add no key |
| PostsController.NoFiltersReturnsAll | src/posts/posts.repository.ts:24-40 | with no parameters the predicate is empty and search returns every stored post |
| PostsController.SearchByAuthorPredicate | src/posts/posts.repository.ts:33-35 | a decimal author id builds exactly the `{ authorId }` predicate |
| PostsController.WhereIsConjunction | src/posts/posts.repository.ts:26-39 | the combined predicate holds iff each single-filter predicate holds |
| PostsController.CombinedIsIntersection | src/posts/posts.repository.ts:26-39 | a post is in the combined result iff it is in each single-filter result |
| PostsController.CombinedIsSuccessiveFiltering | src/posts/posts.repository.ts:26-39 | applying the three single filters in turn yields the combined result, in the same order |
| PostsController.TermSearchSoundAndComplete | src/posts/posts.repository.ts:27-32 | a term search returns exactly the stored posts whose title or content contains the term, ignoring case |
| PostsController.ScenarioTextsHoldTerm | test/posts.e2e-spec.ts:141-144 | both sample texts contain the term "should-return" |
| PostsController.TermSearchScenario | test/posts.e2e-spec.ts:138-171 | the title match and the content match are returned in store order, and the non-matching post is left out |
| PostsController.CreateKeepsNonePublished | src/posts/posts.service.ts:10-13 | creating through the endpoint never adds a published post |
| UsersDto.ValidateCreateUser | src/users/dto/users.dto.ts:3-10 | a body passes iff `name` is present, non-empty and at most 255 characters and `email` is present, passes the email check and is at most 255 characters; otherwise the error names exactly the failing properties |
| UsersDto.EmptyUserRejected | src/users/dto/users.dto.ts:3-10 | `{}` is rejected on `name` and `email` |
| UsersDto.MalformedEmailRejected | src/users/dto/users.dto.ts:7 | an email the email check refuses is rejected on `email` alone |
| UsersService.FindByEmail | src/users/users.repository.ts:14-16 | a stored user with exactly that email, or nothing iff none has it |
| UsersService.Create | src/users/users.service.ts:13-22 | Conflict iff the email is taken, leaving the store unchanged; otherwise exactly one user with the given name and email is added and its id returned |
| UsersService.CreatePreservesInvariant | src/users/users.service.ts:14-21 | a create keeps emails and ids unique |
| UsersService.SecondCreateConflicts | src/users/users.service.ts:14-18 | of two creates with one email, the first succeeds and the second is a Conflict that changes nothing |
| UsersService.FindAll | src/users/users.service.ts:9-11 | the list is the whole store, in order |
| UsersService.CreatedUserIsListed | src/users/users.service.ts:20-21 | after a successful create, the list holds the new user under the returned id |
| UsersController.Handle | src/users/users.controller.ts:9-18 | a list request returns the store and leaves it unchanged; a create is a validation error, a Conflict or `{ userId }` as the body and store dictate, and only the last changes the store |
| UsersController.EmptyBodyCreatesNothing | test/users.e2e-spec.ts:92-102 | `POST /users` with `{}` is a validation error and stores nothing |
| UsersController.InvalidEmailCreatesNothing | test/users.e2e-spec.ts:104-114 | `"invalid-email"` is a validation error on `email` and stores nothing |
| UsersController.HandlePreservesInvariant | src/users/users.service.ts:14-21 | every request keeps emails and ids unique |
| UsersController.Run | src/users/users.service.ts:13-22 | a run of requests only adds users, and only under the ids handed out for it |
| UsersController.RunPreservesInvariant | src/users/users.service.ts:14-21 | no run of requests ever stores two users with the same email |

## Left out

- Prisma and the database: stores are sequences. No foreign key or NOT NULL constraint is modelled, and neither are the backend's unique index or its failures. Post fields may be absent in stored records.
- Id assignment: the backend's choice is a parameter `newId`, required to be fresh in the store. No particular numbering scheme is modelled.
- Case-insensitive `contains`: only ASCII letters are folded. Unicode case folding and database collation are not modelled. A null column never matches.
- `@IsEmail`: the validator library's syntax check is a parameter `isEmail: string -> bool`.
- The validation pipe's whitelist stripping and its wiring: a stray `published` key stays in the post payload. The service overwrites it either way.
- The check-then-insert race between concurrent user creates: the model is sequential, and the race is noted in a comment in users_service.dfy.
- NestJS plumbing: decorators, dependency injection, routing, async/await, and status codes beyond the three error signals.
- The route parameter of `GET /posts/:id` is taken as an integer. Its coercion from the path string is not modelled.
- String lengths are counted in Dafny characters (Unicode scalar values). `@MaxLength` counts like validator.js `isLength`: a surrogate pair is one character, as here, but the variation selectors U+FE0E and U+FE0F are not counted at all. The model counts them, so it rejects a few strings near the bound that the source accepts.
- Result order: neither `findMany` call (src/posts/posts.repository.ts:25-40, src/users/users.repository.ts:10) has an `orderBy`, so the database decides the row order. The model returns rows in store order and appends new rows at the end. The facts that mention order depend on that choice: `PostsRepository.FindManyMatchAll`, `PostsController.CombinedIsSuccessiveFiltering`, `PostsController.TermSearchScenario`, `UsersService.FindAll` and the position of the new row in `PostsRepository.Create`. The membership and multiplicity forms do not depend on it: the contract of `PostsRepository.FindMany` and `PostsController.CombinedIsIntersection`.
- JSON values of the wrong type (a number as `title`, `null`), repeated query parameters and fractional numbers are not modelled.
- src/users/users.controller.ts and src/users/users.repository.ts are pass-throughs. They are folded into `UsersController.Handle` and the `UsersService` store operations.
- The test factories generate random data and are not modelled.
- PostsDto.ToNumber: only the empty string and plain digit strings are numbers. JavaScript's `Number` also reads surrounding whitespace, a sign, fractions, exponents, hexadecimal and `Infinity`. The model treats all of these as NaN, so it rejects some `authorId` values the source accepts. `Number` also yields a double: a digit string above 2^53 is rounded (`"9007199254740993"` becomes 9007199254740992), while the model reads it exactly, so for such values it builds an `authorId` clause with a different number.
- PostsDto.TransformSearch: inherits the narrower number reading of `PostsDto.ToNumber`.
- PostsDto.ValidateSearch: inherits the narrower number reading of `PostsDto.ToNumber`.
