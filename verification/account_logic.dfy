/** Account business rules (backend-clean/internal/domain/account/logic.go). */
module AccountLogic {

  import opened Wrappers
  import opened DomainErrors
  import opened Text
  import opened AccountDomain
  import opened Rules

  /** The account's rules in the order they are checked: a first or last name,
      an id, a provider and a provider account id, each non-blank after
      trimming white space. */
  function AccountChecks(a: Account): seq<Outcome> {
    [ Need(!Blank(a.firstName) || !Blank(a.lastName), InvalidName),
      Need(!Blank(a.id), OwnerRequired),
      Need(!Blank(a.provider), ProviderRequired),
      Need(!Blank(a.providerAccountId), ProviderAccountRequired) ]
  }

  /** Checks the account: it passes exactly when every required value is
      non-blank, and otherwise fails with the kind of the first rule broken. */
  function Validate(a: Account): (r: Outcome)
    ensures r.Pass? <==>
              && (!Blank(a.firstName) || !Blank(a.lastName))
              && !Blank(a.id) && !Blank(a.provider) && !Blank(a.providerAccountId)
    ensures r == Fail(InvalidName) <==> Blank(a.firstName) && Blank(a.lastName)
    ensures r == Fail(OwnerRequired) <==>
              (!Blank(a.firstName) || !Blank(a.lastName)) && Blank(a.id)
  {
    if Blank(a.firstName) && Blank(a.lastName) then Fail(InvalidName)
    else if Blank(a.id) then Fail(OwnerRequired)
    else if Blank(a.provider) then Fail(ProviderRequired)
    else if Blank(a.providerAccountId) then Fail(ProviderAccountRequired)
    else Pass
  }

  /** Validate is the first-failure chain of the four account rules. */
  lemma ValidateIsFirstFailure(a: Account)
    ensures Validate(a) == FirstFailure(AccountChecks(a))
  {
    var c := AccountChecks(a);
    FirstFailureOfFour(c[0], c[1], c[2], c[3]);
  }

  /** Merges the latest login profile into `current`. An unparsable e-mail
      returns `current` untouched with ParseEmail's error. Otherwise the
      e-mail is always replaced, an empty first or last name keeps the current
      one, a nil thumbnail keeps the current one, nothing else changes, and the
      merged account comes back together with its own validation result, even
      when that is a failure. */
  function UpdateProfile(v: Validators, current: Account, input: OAuthAccountInput): (r: Returns<Account>)
    ensures v.parseEmail(input.email).Err? ==>
              r == Returns(current, Fail(v.parseEmail(input.email).error))
    ensures v.parseEmail(input.email).Ok? ==>
              && r.value.email == v.parseEmail(input.email).value
              && r.value.firstName == (if input.firstName == "" then current.firstName else input.firstName)
              && r.value.lastName == (if input.lastName == "" then current.lastName else input.lastName)
              && r.value.thumbnail == input.thumbnail.GetOr(current.thumbnail)
              && r.value.(email := current.email, firstName := current.firstName,
                          lastName := current.lastName, thumbnail := current.thumbnail) == current
              && r.err == Validate(r.value)
  {
    match v.parseEmail(input.email)
    case Err(e) => Returns(current, Fail(e))
    case Ok(email) =>
      var merged := current.(
        email := email,
        firstName := if input.firstName != "" then input.firstName else current.firstName,
        lastName := if input.lastName != "" then input.lastName else current.lastName,
        thumbnail := if input.thumbnail.Some? then input.thumbnail.value else current.thumbnail);
      Returns(merged, Validate(merged))
  }
}
