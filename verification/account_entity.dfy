/** Account entities. The account package's entity file is not part of this
    model; the fields below are the ones logic.go, account_interactor.go and
    account_repository.go read and write. */
module AccountDomain {

  import opened Wrappers
  import opened Timestamps

  /** A parsed e-mail address (`account.Email`, a string type). */
  datatype Email = Email(address: string)

  datatype Account = Account(
    id: string,
    email: Email,
    firstName: string,
    lastName: string,
    isActive: bool,
    provider: string,
    providerAccountId: string,
    thumbnail: string,
    lastLoginAt: Option<Time>,
    createdAt: Time,
    updatedAt: Time)

  /** The profile an OAuth login reports; `thumbnail` may be nil. */
  datatype OAuthAccountInput = OAuthAccountInput(
    email: string,
    firstName: string,
    lastName: string,
    provider: string,
    providerAccountId: string,
    thumbnail: Option<string>)
}
