/** The users endpoints, `POST /users` and `GET /users`, each composed of
    the validation pipe and the service, as a sequential state machine over
    the user store. */
module UsersController {
  import opened Outcomes
  import opened UsersDto
  import opened UsersService

  datatype Request = CreateUser(body: UserBody) | ListUsers

  /** `{ userId }`, the user list, or an error signal. */
  datatype Response = Created(userId: int) | Listed(users: seq<User>) | Failed(error: Error)

  datatype Step = Step(response: Response, users: seq<User>)

  /** One request against the store. `newId` is the id the backend would
      assign if a user were inserted. */
  function Handle(users: seq<User>, req: Request, newId: int, isEmail: string -> bool): (r: Step)
    requires IdFresh(users, newId)
    ensures req.ListUsers? ==> r == Step(Listed(users), users)
    ensures req.CreateUser? && !ValidUser(req.body, isEmail) ==>
      r.users == users && r.response.Failed? && r.response.error.Invalid?
    ensures req.CreateUser? && ValidUser(req.body, isEmail) && EmailTaken(users, req.body.email.value) ==>
      r == Step(Failed(Conflict), users)
    ensures req.CreateUser? && ValidUser(req.body, isEmail) && !EmailTaken(users, req.body.email.value) ==>
      r == Step(Created(newId), users + [User(newId, req.body.name.value, req.body.email.value)])
  {
    match req
    case ListUsers => Step(Listed(FindAll(users)), users)
    case CreateUser(body) =>
      match ValidateCreateUser(body, isEmail)
      case Err(e) => Step(Failed(e), users)
      case Ok(dto) =>
        var c := Create(users, dto, newId);
        match c.result
        case Ok(id) => Step(Created(id), c.users)
        case Err(e) => Step(Failed(e), c.users)
  }

  /** `POST /users` with `{}` answers with a validation error and stores
      nothing. */
  lemma EmptyBodyCreatesNothing(users: seq<User>, newId: int, isEmail: string -> bool)
    requires IdFresh(users, newId)
    ensures Handle(users, CreateUser(UserBody(None, None)), newId, isEmail)
            == Step(Failed(Invalid(["name", "email"])), users)
  {
  }

  /** `POST /users` with the email "invalid-email", which the email check
      refuses, stores nothing. */
  lemma InvalidEmailCreatesNothing(users: seq<User>, newId: int, isEmail: string -> bool)
    requires IdFresh(users, newId)
    requires !isEmail("invalid-email")
    ensures Handle(users, CreateUser(UserBody(Some("John Doe"), Some("invalid-email"))), newId, isEmail)
            == Step(Failed(Invalid(["email"])), users)
  {
  }

  /** Every handled request keeps emails and ids unique. */
  lemma HandlePreservesInvariant(users: seq<User>, req: Request, newId: int, isEmail: string -> bool)
    requires StoreInvariant(users)
    requires IdFresh(users, newId)
    ensures StoreInvariant(Handle(users, req, newId, isEmail).users)
  {
  }

  /** The ids the backend hands out over a run: none already stored, no
      two alike. */
  predicate FreshIds(users: seq<User>, ids: seq<int>) {
    && (forall k :: 0 <= k < |ids| ==> IdFresh(users, ids[k]))
    && (forall a, b :: 0 <= a < b < |ids| ==> ids[a] != ids[b])
  }

  /** The store after handling `reqs` in order, the k-th request being
      offered the id `ids[k]`. Users are only ever added. */
  function Run(users: seq<User>, reqs: seq<Request>, ids: seq<int>, isEmail: string -> bool): (r: seq<User>)
    requires |ids| == |reqs|
    requires FreshIds(users, ids)
    ensures |users| <= |r| && r[..|users|] == users
    ensures forall u :: u in r && u !in users ==> u.id in ids
    decreases |reqs|
  {
    if |reqs| == 0 then users
    else
      var s := Handle(users, reqs[0], ids[0], isEmail);
      assert forall u :: u in s.users && u !in users ==> u.id == ids[0];
      var r := Run(s.users, reqs[1..], ids[1..], isEmail);
      assert s.users[..|users|] == users;
      assert r[..|users|] == r[..|s.users|][..|users|];
      r
  }

  /** Sequentially, no run of requests ever stores two users with the same
      email. */
  lemma {:induction false} RunPreservesInvariant(users: seq<User>, reqs: seq<Request>, ids: seq<int>, isEmail: string -> bool)
    requires |ids| == |reqs|
    requires FreshIds(users, ids)
    requires StoreInvariant(users)
    ensures StoreInvariant(Run(users, reqs, ids, isEmail))
    decreases |reqs|
  {
    if |reqs| > 0 {
      HandlePreservesInvariant(users, reqs[0], ids[0], isEmail);
      var s := Handle(users, reqs[0], ids[0], isEmail);
      RunPreservesInvariant(s.users, reqs[1..], ids[1..], isEmail);
    }
  }
}
