/** The create-user body and its validation rules. Email syntax is the
    validator library's own check, which this model takes as a parameter
    `isEmail`. */
module UsersDto {
  import opened Outcomes
  import opened Text

  /** A create-user body as a JavaScript object: either key may be
      absent. */
  datatype UserBody = UserBody(name: Option<string>, email: Option<string>)

  /** A body that passed validation: both keys are strings. */
  datatype CreateUserDto = CreateUserDto(name: string, email: string)

  /** `name`: `@IsNotEmpty() @MaxLength(255)`. */
  predicate NameValid(b: UserBody) {
    IsNotEmpty(b.name) && HasMaxLength(b.name)
  }

  /** `email`: `@IsEmail() @MaxLength(255)`. */
  predicate EmailValid(b: UserBody, isEmail: string -> bool) {
    b.email.Some? && isEmail(b.email.value) && HasMaxLength(b.email)
  }

  predicate ValidUser(b: UserBody, isEmail: string -> bool) {
    NameValid(b) && EmailValid(b, isEmail)
  }

  /** The validation pipe on a create-user body: a valid body becomes the
      DTO with the same name and email; an invalid one is answered with the
      failing properties, in declaration order. */
  function ValidateCreateUser(b: UserBody, isEmail: string -> bool): (r: Result<CreateUserDto>)
    ensures r.Ok? <==> ValidUser(b, isEmail)
    ensures r.Ok? ==> Some(r.value.name) == b.name && Some(r.value.email) == b.email
    ensures r.Err? ==> r.error.Invalid? && |r.error.fields| > 0
    ensures r.Err? ==> ("name" in r.error.fields <==> !NameValid(b))
    ensures r.Err? ==> ("email" in r.error.fields <==> !EmailValid(b, isEmail))
    ensures r.Err? ==> forall f :: f in r.error.fields ==> f in ["name", "email"]
  {
    var fields := (if NameValid(b) then [] else ["name"])
      + (if EmailValid(b, isEmail) then [] else ["email"]);
    if fields == [] then Ok(CreateUserDto(b.name.value, b.email.value))
    else Err(Invalid(fields))
  }

  /** `{}` fails on both properties, whatever the email check is. */
  lemma EmptyUserRejected(isEmail: string -> bool)
    ensures ValidateCreateUser(UserBody(None, None), isEmail) == Err(Invalid(["name", "email"]))
  {
  }

  /** A well-formed name with an email the email check refuses fails on
      `email` alone. */
  lemma MalformedEmailRejected(name: string, email: string, isEmail: string -> bool)
    requires name != "" && WithinMaxLength(name)
    requires !isEmail(email)
    ensures ValidateCreateUser(UserBody(Some(name), Some(email)), isEmail) == Err(Invalid(["email"]))
  {
  }
}
