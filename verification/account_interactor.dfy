/** The account use cases (backend-clean/internal/usecase/account_interactor.go).
    The repository and the presenter are parameters; each run returns its
    error together with the calls it made to them, in order. */
module AccountInteractor {

  import opened Wrappers
  import opened DomainErrors
  import opened Timestamps
  import opened Text
  import opened AccountDomain
  import opened Rules
  import opened AccountLogic

  /** The account repository (port.AccountRepository) and the output port's
      PresentAccount. */
  datatype Collaborators = Collaborators(
    upsertOAuthAccount: OAuthAccountInput -> Result<Account>,
    getById: string -> Result<Account>,
    presentAccount: Account -> Outcome)

  /** One call to a collaborator. */
  datatype Call = Upserted(input: OAuthAccountInput) | Fetched(id: string) | Presented(account: Account)

  datatype Trace = Trace(err: Outcome, calls: seq<Call>)

  /** The account CreateOrGet validates: the caller's profile with the parsed
      e-mail, the thumbnail dereferenced, and every other field, the id
      included, at its zero value. */
  function Candidate(email: Email, input: OAuthAccountInput): (a: Account)
    ensures a.id == "" && a.email == email
    ensures a.firstName == input.firstName && a.lastName == input.lastName
    ensures a.provider == input.provider && a.providerAccountId == input.providerAccountId
    ensures a.thumbnail == ValueOrEmpty(input.thumbnail)
    ensures input.thumbnail.None? ==> a.thumbnail == ""
    ensures !a.isActive && a.lastLoginAt.None?
    ensures a.createdAt == ZeroTime && a.updatedAt == ZeroTime
  {
    Account("", email, input.firstName, input.lastName, false, input.provider, input.providerAccountId,
            ValueOrEmpty(input.thumbnail), None, ZeroTime, ZeroTime)
  }

  /** CreateOrGet as written. An unparsable e-mail is returned with no call.
      Otherwise the candidate, whose id is always empty, is validated, so the
      result is InvalidName when both names are blank and OwnerRequired in
      every other case: the upsert and the presenter are never reached. */
  function CreateOrGet(v: Validators, c: Collaborators, input: OAuthAccountInput): (r: Trace)
    ensures v.parseEmail(input.email).Err? ==> r.err == Fail(v.parseEmail(input.email).error)
    ensures v.parseEmail(input.email).Ok? ==>
              r.err == Fail(if Blank(input.firstName) && Blank(input.lastName) then InvalidName else OwnerRequired)
    ensures r.calls == []
  {
    match v.parseEmail(input.email)
    case Err(e) => Trace(Fail(e), [])
    case Ok(email) =>
      var valid := Validate(Candidate(email, input));
      if valid.Fail? then Trace(valid, [])
      else
        match c.upsertOAuthAccount(input)
        case Err(e) => Trace(Fail(e), [Upserted(input)])
        case Ok(a) => Trace(c.presentAccount(a), [Upserted(input), Presented(a)])
  }

  /** The account rules that make sense before the store has assigned an id:
      Validate's checks in Validate's order, the id check left out. */
  function ValidateProfile(a: Account): (r: Outcome)
    ensures r.Pass? <==>
              (!Blank(a.firstName) || !Blank(a.lastName)) && !Blank(a.provider) && !Blank(a.providerAccountId)
  {
    if Blank(a.firstName) && Blank(a.lastName) then Fail(InvalidName)
    else if Blank(a.provider) then Fail(ProviderRequired)
    else if Blank(a.providerAccountId) then Fail(ProviderAccountRequired)
    else Pass
  }

  /** ValidateProfile is Validate for an account that already has an id. */
  lemma ValidateProfileIsValidateWithId(a: Account, id: string)
    requires !Blank(id)
    ensures ValidateProfile(a) == Validate(a.(id := id))
  {
  }

  /** CreateOrGet as evidently intended: the same steps with the id check
      skipped. A parsable e-mail and a valid profile always reach the upsert;
      its error is returned with nothing presented, and otherwise exactly the
      upserted account is presented. */
  function CreateOrGetCorrected(v: Validators, c: Collaborators, input: OAuthAccountInput): (r: Trace)
    ensures v.parseEmail(input.email).Err? ==> r == Trace(Fail(v.parseEmail(input.email).error), [])
    ensures v.parseEmail(input.email).Ok? ==>
              var profile := ValidateProfile(Candidate(v.parseEmail(input.email).value, input));
              && (profile.Fail? ==> r == Trace(profile, []))
              && (profile.Pass? ==>
                    match c.upsertOAuthAccount(input)
                    case Err(e) => r == Trace(Fail(e), [Upserted(input)])
                    case Ok(a) => r == Trace(c.presentAccount(a), [Upserted(input), Presented(a)]))
  {
    match v.parseEmail(input.email)
    case Err(e) => Trace(Fail(e), [])
    case Ok(email) =>
      var valid := ValidateProfile(Candidate(email, input));
      if valid.Fail? then Trace(valid, [])
      else
        match c.upsertOAuthAccount(input)
        case Err(e) => Trace(Fail(e), [Upserted(input)])
        case Ok(a) => Trace(c.presentAccount(a), [Upserted(input), Presented(a)])
  }

  /** A login with a parsable e-mail, a first name, a provider and a provider
      account id never gets past validation as written, and always reaches the
      upsert once the id check is dropped. */
  lemma CreateOrGetNeverUpserts(v: Validators, c: Collaborators, input: OAuthAccountInput)
    requires v.parseEmail(input.email).Ok?
    requires !Blank(input.firstName) && !Blank(input.provider) && !Blank(input.providerAccountId)
    ensures CreateOrGet(v, c, input) == Trace(Fail(OwnerRequired), [])
    ensures CreateOrGetCorrected(v, c, input).calls[0] == Upserted(input)
  {
    var candidate := Candidate(v.parseEmail(input.email).value, input);
    assert Blank(candidate.id);
    assert !Blank(candidate.firstName) && !Blank(candidate.provider) && !Blank(candidate.providerAccountId);
    assert Validate(candidate) == Fail(OwnerRequired);
    assert ValidateProfile(candidate) == Pass;
  }

  /** Reads an account by id. A repository error is returned with nothing
      presented; otherwise exactly the fetched account is presented and the
      presenter's result is returned. */
  function GetById(c: Collaborators, id: string): (r: Trace)
    ensures |r.calls| > 0 && r.calls[0] == Fetched(id)
    ensures c.getById(id).Err? ==> r.err == Fail(c.getById(id).error) && |r.calls| == 1
    ensures c.getById(id).Ok? ==>
              r.calls == [Fetched(id), Presented(c.getById(id).value)] &&
              r.err == c.presentAccount(c.getById(id).value)
  {
    match c.getById(id)
    case Err(e) => Trace(Fail(e), [Fetched(id)])
    case Ok(a) => Trace(c.presentAccount(a), [Fetched(id), Presented(a)])
  }

  // ---- what the presenter sees ----

  /** The account a repository call returned, if any. */
  function Returned(c: Collaborators, call: Call): Option<Account> {
    match call
    case Upserted(input) => if c.upsertOAuthAccount(input).Ok? then Some(c.upsertOAuthAccount(input).value) else None
    case Fetched(id) => if c.getById(id).Ok? then Some(c.getById(id).value) else None
    case Presented(_) => None
  }

  /** Every presented account is the one the repository call just before it
      returned, and a run reports success only when its last call presented
      an account the presenter accepted. */
  predicate PresentsOnlyRead(c: Collaborators, t: Trace) {
    && (forall i :: 0 <= i < |t.calls| && t.calls[i].Presented? ==>
          i > 0 && Returned(c, t.calls[i - 1]) == Some(t.calls[i].account))
    && (t.err.Pass? ==>
          |t.calls| > 0 && t.calls[|t.calls| - 1].Presented? &&
          c.presentAccount(t.calls[|t.calls| - 1].account) == Pass)
  }

  /** GetById and both readings of CreateOrGet only ever present what the
      repository returned, and succeed only through the presenter. */
  lemma AccountRunsPresentOnlyRead(v: Validators, c: Collaborators, input: OAuthAccountInput, id: string)
    ensures PresentsOnlyRead(c, GetById(c, id))
    ensures PresentsOnlyRead(c, CreateOrGet(v, c, input))
    ensures PresentsOnlyRead(c, CreateOrGetCorrected(v, c, input))
  {
    var fetched := GetById(c, id);
    if c.getById(id).Ok? {
      assert fetched.calls[1].Presented? && fetched.calls[0] == Fetched(id);
    }
    var corrected := CreateOrGetCorrected(v, c, input);
    if |corrected.calls| == 2 {
      assert corrected.calls[0] == Upserted(input);
    }
  }
}
