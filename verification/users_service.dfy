/** The user service over an in-memory user store: listing, lookup by
    email, and creation guarded by an email-uniqueness check. The
    repository's calls are the store operations below.

    The check and the insert are two separate backend calls; two concurrent
    requests with the same email can both pass the check. This sequential
    model does not express that race. */
module UsersService {
  import opened Outcomes
  import opened UsersDto

  datatype User = User(id: int, name: string, email: string)

  /** No two stored users share an email. */
  predicate UniqueEmails(users: seq<User>) {
    forall i, j :: 0 <= i < j < |users| ==> users[i].email != users[j].email
  }

  /** No two stored users share an id. */
  predicate UniqueIds(users: seq<User>) {
    forall i, j :: 0 <= i < j < |users| ==> users[i].id != users[j].id
  }

  predicate StoreInvariant(users: seq<User>) {
    UniqueEmails(users) && UniqueIds(users)
  }

  predicate EmailTaken(users: seq<User>, email: string) {
    exists u :: u in users && u.email == email
  }

  predicate IdFresh(users: seq<User>, id: int) {
    forall u :: u in users ==> u.id != id
  }

  /** `findUnique({ where: { email } })`: a stored user with exactly that
      email (compared case-sensitively), or nothing. */
  function FindByEmail(users: seq<User>, email: string): (r: Option<User>)
    ensures r.None? <==> !EmailTaken(users, email)
    ensures r.Some? ==> r.value in users && r.value.email == email
    decreases |users|
  {
    if |users| == 0 then None
    else if users[0].email == email then Some(users[0])
    else FindByEmail(users[1..], email)
  }

  /** The response and the store after a create. */
  datatype CreateOutcome = CreateOutcome(result: Result<int>, users: seq<User>)

  /** Check, then insert: a taken email is a Conflict and the store is left
      as it was; otherwise exactly one user with the given name and email is
      added under the backend-chosen fresh id, which is returned. */
  function Create(users: seq<User>, dto: CreateUserDto, newId: int): (r: CreateOutcome)
    requires IdFresh(users, newId)
    ensures r.result.Err? <==> EmailTaken(users, dto.email)
    ensures r.result.Err? ==> r.result.error == Conflict && r.users == users
    ensures r.result.Ok? ==> r.result.value == newId
    ensures r.result.Ok? ==> r.users == users + [User(newId, dto.name, dto.email)]
  {
    if FindByEmail(users, dto.email).Some? then CreateOutcome(Err(Conflict), users)
    else CreateOutcome(Ok(newId), users + [User(newId, dto.name, dto.email)])
  }

  /** Create keeps emails and ids unique. */
  lemma {:induction false} CreatePreservesInvariant(users: seq<User>, dto: CreateUserDto, newId: int)
    requires StoreInvariant(users)
    requires IdFresh(users, newId)
    ensures StoreInvariant(Create(users, dto, newId).users)
  {
  }

  /** Two creates with the same email in a row: the first succeeds and the
      second is a Conflict that changes nothing. */
  lemma SecondCreateConflicts(users: seq<User>, first: CreateUserDto, second: CreateUserDto, id1: int, id2: int)
    requires IdFresh(users, id1)
    requires !EmailTaken(users, first.email)
    requires second.email == first.email
    requires id2 != id1 && IdFresh(users, id2)
    ensures var r1 := Create(users, first, id1);
      && r1.result == Ok(id1)
      && Create(r1.users, second, id2) == CreateOutcome(Err(Conflict), r1.users)
  {
  }

  /** `findMany()`: every stored user, in store order. */
  function FindAll(users: seq<User>): (r: seq<User>)
    ensures |r| == |users|
    ensures forall i :: 0 <= i < |users| ==> r[i] == users[i]
  {
    users
  }

  /** A created user is listed afterwards with the submitted name and email
      under the returned id. */
  lemma CreatedUserIsListed(users: seq<User>, dto: CreateUserDto, newId: int)
    requires IdFresh(users, newId)
    requires !EmailTaken(users, dto.email)
    ensures var r := Create(users, dto, newId);
      User(r.result.value, dto.name, dto.email) in FindAll(r.users)
  {
  }
}
