# Notes and templates backend: a Dafny model

This project models the domain rules and use-case orchestration of a Go
backend that manages **templates** and **notes**:

- A template has a name, an owner and an ordered list of labelled fields.
  Some fields are required.
- A note is written against a template. It holds one section per field and
  has a status, `Draft` or `Publish`.
- Accounts are created or refreshed from an OAuth login.

The model has three layers.

1. **Pure domain functions.**
   - The template aggregate's `ReplaceFields` and `EnsureOwner` (`TemplateAggregate`).
   - Empty-section synthesis and `BuildNote` (`DomainService`).
   - Account `Validate` and `UpdateProfile` (`AccountLogic`).
   - The HTTP error classification and response shaping (`HttpHelper`).
2. **Use-case interactors** for notes, templates and accounts
   (`NoteInteractor`, `TemplateInteractor`, `AccountInteractor`). The note
   and template interactors are pure functions over an explicit store
   `Store.State`, which holds:
   - a map of notes;
   - a map of templates;
   - a log of the writes performed.

   The note and template interactors return the new state together with
   their result. A contract can therefore say that no write happened (the
   state is unchanged), or exactly which writes happened. The account
   interactor's repository and presenter are parameters instead; it returns
   its error together with the trace of calls it made to them.
3. **The unit of work**, `Store.WithinTransaction`:
   - it begins a transaction and runs the callback on the current state;
   - it restores the snapshot and returns the callback's error if the
     callback fails;
   - otherwise it commits.

   Begin and commit can themselves fail.

**Validators whose bodies are not part of this model.**
- `template.NormalizeAndValidate`
- `note.ValidateNoteForCreate`, `note.ValidateSections`, `note.ValidateNoteOwnership`,
  `note.CanChangeStatus` and `NoteStatus.Validate`
- `service.CanPublish` and `service.CanUnpublish`
- `account.ParseEmail`

Each is a field of the record `Rules.Validators`, which every operation takes
as a parameter. The interactor contracts hold for every choice of them. The
facts the repository's tests fix are collected in the predicate
`Rules.PinnedByTests`, which appears only as a lemma precondition. A scenario
that needs a verdict no test fixes states that verdict as a further explicit
precondition. For example, `Scenarios.CreateNoteSucceeds` assumes ValidateSections
accepts its one section, and `Scenarios.UpdateByOtherOwnerFails` assumes the
ownership check refuses owner-2 on owner-1's note.

**Storage failures.** A failing database call is modelled by listing its
operation kind in `Store.Env.faults`. The id a database would assign to a new
row is part of `Store.Env`.

`Store.Consistent` is the store invariant:
- every note refers to a stored template;
- every section of a note carries that note's id.

`StoreInvariants` proves that every interactor preserves it and only appends
to the write log.

Points where the code and its surroundings disagree (the model follows the
code):

- `template_interactor.go:99` names `errors.ErrTemplateInUse`, but the file
  imports the error package as `domainerr`. The model reads it as the
  `TemplateInUse` kind.
- The template input port declares `Create` and `Update` as returning only an
  error and `Delete` as taking an owner id (`template_port.go:12-14`). The
  interactor returns the read-back template from `Create` and `Update`, and
  its `Delete` takes no owner (`template_interactor.go:30`, `61`, `93`), so a
  template is deleted with no ownership check. The model follows the
  interactor.
- `note_interactor.go:96` passes the update input's section list to
  `buildSections`. That list is declared as `[]SectionUpdateInput`, and the
  parameter is `[]SectionInput`. The model treats both as `(fieldId, content)`
  pairs.
- A template-interactor test expects an empty name to fail with
  `TemplateNameRequired`, but `TemplateInteractor.Create` never looks at the
  name. `Scenarios.CreateTemplateAcceptsEmptyName` states what the code does.
- A note Update with an empty, non-nil section list does not clear the
  sections: `buildSections` treats zero inputs as "synthesise the template's
  empty sections" (`note_interactor.go:96`, `154-172`), so that is what
  `NoteInteractor.Update` writes.
- `NoteInteractor.Update` reads the note's template with the outer context,
  not the transaction's. In the model, that read sees the state from before
  the title update. The read does not depend on the title, so this changes
  nothing observable.

## Model

| member | source | states |
|---|---|---|
| DomainErrors.FirstFailure | backend-clean/internal/domain/account/logic.go:16-30 | A chain of early-returning checks passes iff every check passes; otherwise its error is that of the first failing check, and every check before it passed |
| DomainErrors.FirstFailureOfTwo | backend-clean/internal/domain/service/note_lifecycle.go:11-16 | A two-check chain returns the first check's failure if there is one, else the second check's outcome |
| DomainErrors.FirstFailureOfFour | backend-clean/internal/usecase/note_interactor.go:117-135 | A four-check chain is the first failure among the four, in order |
| Text.TrimSpace | backend-clean/internal/domain/account/logic.go:17 | The result is an infix of the input, surrounded only by white space (Go's unicode.IsSpace code points), and neither starts nor ends with white space; it is empty iff the input is blank |
| Text.LeadingSpace | backend-clean/internal/domain/account/logic.go:17 | The white-space prefix ends at the first non-space code point, and covers the whole string iff the string is blank |
| Text.TrimSpaceKeepsTrimmed | backend-clean/internal/adapter/http/controller/helper.go:43 | A string that neither starts nor ends with white space is left as it is |
| Text.TrimSpaceIdempotent | backend-clean/internal/adapter/http/controller/helper.go:43 | Trimming twice gives the same string as trimming once |
| Text.BlankConcat | backend-clean/internal/adapter/http/controller/helper.go:43 | A concatenation is blank iff both parts are |
| Text.ValueOrEmpty | backend-clean/internal/usecase/account_interactor.go:52-57 | A nil pointer reads as "", otherwise as its pointee |
| Text.StrPtrOrNil | backend-clean/internal/adapter/http/controller/helper.go:108-113 | Gives nil exactly for "", otherwise a pointer to the string |
| Text.StrPtrRoundTrip | backend-clean/internal/adapter/http/controller/helper.go:101-113 | valueOrEmpty(strPtrOrNil(s)) == s for every s; the converse round trip is exact for every pointer except one to "" |
| Wrappers.Elements | backend-clean/internal/usecase/template_interactor.go:77-78 | A nil slice reads as the empty list, any other slice as its elements |
| TemplateAggregate.ReplaceFields | backend-clean/internal/domain/template/aggregate.go:7-14 | A normaliser error is returned unchanged with the template untouched; on success the fields are exactly the normaliser's output; nothing but the fields ever changes |
| TemplateAggregate.EnsureOwner | backend-clean/internal/domain/template/aggregate.go:16-23 | Fails with TemplateOwnerRequired iff the owner is "", leaving the template as it was; otherwise sets the owner even when one was already set; nothing but the owner changes |
| TemplateAggregate.ReplaceFieldsPinnedCases | backend-clean/internal/domain/template/aggregate_test.go:16-45 | The two-field list is accepted and the field count is kept; the list with an unlabelled field fails with FieldLabelRequired and leaves the template as it was |
| DomainService.BuildSectionsFromTemplate | backend-clean/internal/domain/service/build_sections_from_template.go:11-21 | One section per field, in field order, with that field's id and empty id, note id and content |
| DomainService.BuildSectionsReadsOnlyIds | backend-clean/internal/domain/service/build_sections_from_template.go:13-19 | Two field lists with the same ids give the same sections: labels, orders and required flags are ignored |
| DomainService.SynthesisedSectionsExample | backend-clean/internal/domain/service/build_sections_from_template_test.go:14-33 | The test's fields f1, f2 give empty sections for f1 then f2 |
| DomainService.BuildNote | backend-clean/internal/domain/service/note_lifecycle.go:10-24 | The error is ValidateNoteForCreate's failure, or else OwnerRequired for an empty owner; any failure comes with the zero note; success gives a Draft note with the given title, template id, owner and sections, and an empty id and zero timestamps |
| DomainService.BuildNotePinnedCases | backend-clean/internal/domain/service/note_lifecycle_test.go:12-69 | The test's three cases: a Draft note owned by owner-1 on tpl-1; OwnerRequired for an empty owner; RequiredFieldEmpty for an empty required section |
| AccountLogic.Validate | backend-clean/internal/domain/account/logic.go:16-30 | Passes iff a name, the id, the provider and the provider account are all non-blank; InvalidName iff both names are blank; OwnerRequired iff a name is present and the id is blank |
| AccountLogic.ValidateIsFirstFailure | backend-clean/internal/domain/account/logic.go:17-29 | Validate is the first failure among the name, id, provider and provider-account checks, in that order |
| AccountLogic.UpdateProfile | backend-clean/internal/domain/account/logic.go:33-49 | An e-mail parse error returns the current account unchanged with that error; otherwise the e-mail is replaced, non-empty names and a non-nil thumbnail overwrite, every other field is kept, and the merged account comes back with Validate of it even when that fails |
| Store.WithinTransaction | backend-clean/internal/driver/db/tx.go:21-33 | Any failure leaves the state as it was; success is the callback's own run; a begin failure is reported as that failure; a callback error is returned as is; a commit failure after a successful callback is reported as that failure; without begin or commit failures the result is the callback's |
| NoteInteractor.StampNoteId | backend-clean/internal/usecase/note_interactor.go:156-160 | Same sections in the same order, each with the given note id |
| NoteInteractor.SectionsFromInputs | backend-clean/internal/usecase/note_interactor.go:163-171 | One section per input, in input order, copying field id and content and stamping the note id |
| NoteInteractor.BuildSections | backend-clean/internal/usecase/note_interactor.go:154-172 | With no inputs, the template's empty sections stamped with the note id; otherwise one section per input in order, ignoring the template; every section carries the note id |
| NoteInteractor.BuildSectionsStampsLater | backend-clean/internal/usecase/note_interactor.go:43-59 | The sections written under the new id are the sections checked before the transaction, with the note id stamped in: the two differ only in their note id |
| NoteInteractor.CreateTx | backend-clean/internal/usecase/note_interactor.go:49-64 | BuildNote's error (ValidateNoteForCreate's, else OwnerRequired for an empty owner) comes with no write; after it, a failing root insert returns its own error and a taken id the duplicate-key error, both with no write; then a ValidateSections failure is returned, and a failing section write returns its own error, both with only the bare root written; otherwise the run succeeds, and success is exactly the new Draft note with its root and section writes |
| NoteInteractor.UpdateTx | backend-clean/internal/usecase/note_interactor.go:83-105 | A failing title write returns its error with no write, and an absent note NotFound; with sections given and the title written, a failing template read returns its error, an absent template NotFound, a ValidateSections failure its error, and a failing section write its error, each with only the title written; success is exactly the title write followed, for section edits, by the wholesale section replacement; with every call possible and the sections accepted, the run succeeds |
| NoteInteractor.Create | backend-clean/internal/usecase/note_interactor.go:37-69 | A template-lookup or ValidateNoteForCreate failure returns before any write; after them every failure is reported as its own cause with no write: begin, empty owner (OwnerRequired), root insert, taken id, ValidateSections on the stamped sections, section write, commit; past the commit the state is exactly the new Draft note plus its root and section writes, and the result is that note, or the read-back's error when the read fails; the state never changes in any other way |
| NoteInteractor.Update | backend-clean/internal/usecase/note_interactor.go:71-110 | A lookup, ownership or blank-title failure (in that order) returns before any write; after them every failure is reported as its own cause with no write: begin, title write, template read, absent template (NotFound), ValidateSections on the rebuilt sections, section write, commit; with none of them, the result is the note with the new title (and, given section edits, the rebuilt sections) and the state exactly that write; the state never changes in any other way |
| NoteInteractor.ChangeStatus | backend-clean/internal/usecase/note_interactor.go:112-141 | The ownership, status, publish-or-unpublish and transition checks run in that order and the first failure is returned with no write; with all passing, a failing status write returns its own error with no write, and otherwise the result is the note with the new status and the state exactly that status write; the state never changes in any other way |
| NoteInteractor.Delete | backend-clean/internal/usecase/note_interactor.go:143-152 | A lookup or ownership failure leaves the store untouched; with both passing, a failing delete returns its own error with no write, and otherwise the result is success and the state is exactly the note removed and the delete logged; the state never changes in any other way |
| TemplateInteractor.CreateTx | backend-clean/internal/usecase/template_interactor.go:39-54 | A failing root insert returns its own error and a taken id the duplicate-key error, both with no write; a failing field write (non-empty list) returns its own error with only the bare root written; otherwise the run succeeds, and success is exactly the new template with its root write and, only for a non-empty list, its field write |
| TemplateInteractor.UpdateTx | backend-clean/internal/usecase/template_interactor.go:69-86 | A failing rename returns its own error and an absent template NotFound, both with no write; a failing field write returns its own error; an empty non-nil list always fails, with InvalidTemplateField once the rename went through; success means the template exists, the list is nil or non-empty, and the state is exactly the rename plus, for a list, the field replacement; with every call possible on a stored template and a nil or non-empty list, the run succeeds |
| TemplateInteractor.Create | backend-clean/internal/usecase/template_interactor.go:30-59 | Fields are normalised only when non-empty and a normaliser error returns before any write; after it every failure is reported as its own cause with no write: begin, root insert, taken id, field write, commit; past the commit the state is exactly the new template plus its root write and, only for a non-empty list, its field write, and the result is the template read back, or the read's error when it fails; the state never changes in any other way |
| TemplateInteractor.Update | backend-clean/internal/usecase/template_interactor.go:61-91 | A normaliser error returns before any write; after it every failure is reported as its own cause with no write: begin, rename, absent template (NotFound), an empty normalised list (InvalidTemplateField, the rename rolled back), field write, commit; past the commit the state is exactly the rename plus, for a non-empty list, the field replacement, and the result is the template read back, or the read's error when it fails; the state never changes in any other way |
| TemplateInteractor.Delete | backend-clean/internal/usecase/template_interactor.go:93-102 | A lookup error is propagated with no write; a template in use fails with TemplateInUse and no write; for an unused stored template a failing delete returns its own error with no write, and otherwise the template is removed with success and the delete logged; the state never changes in any other way |
| AccountInteractor.Candidate | backend-clean/internal/usecase/account_interactor.go:26-33 | The validated account has an empty id, the parsed e-mail, the caller's names, provider, provider account and dereferenced thumbnail, is inactive, has no last login and zero timestamps |
| AccountInteractor.CreateOrGet | backend-clean/internal/usecase/account_interactor.go:21-42 | A parse error is returned with no call; otherwise the result is InvalidName for blank names and OwnerRequired in every other case, and no collaborator is ever called |
| AccountInteractor.ValidateProfile | backend-clean/internal/domain/account/logic.go:17-28 | Passes iff a name, the provider and the provider account are non-blank: Validate without its id check |
| AccountInteractor.ValidateProfileIsValidateWithId | backend-clean/internal/domain/account/logic.go:16-30 | For an account with a non-blank id, ValidateProfile and Validate agree |
| AccountInteractor.CreateOrGetCorrected | backend-clean/internal/usecase/account_interactor.go:21-42 | A parse or profile error returns with no call; a valid profile reaches the upsert; an upsert error is returned with nothing presented, otherwise exactly the upserted account is presented |
| AccountInteractor.CreateOrGetNeverUpserts | backend-clean/internal/usecase/account_interactor.go:26-37 | A complete login fails with OwnerRequired and no calls as written, and reaches the upsert once the id check is dropped |
| AccountInteractor.GetById | backend-clean/internal/usecase/account_interactor.go:44-50 | The repository is read first; its error is returned with nothing presented; otherwise exactly the fetched account is presented and the presenter's result returned |
| AccountInteractor.AccountRunsPresentOnlyRead | backend-clean/internal/usecase/account_interactor.go:21-50 | GetById and CreateOrGet (as written and corrected) present only the account the repository call just before returned, and report success only when the last call presented an account the presenter accepted |
| HttpHelper.StatusFor | backend-clean/internal/adapter/http/controller/helper.go:18-31 | Total over the error kinds: 404 iff NotFound, 403 iff Unauthorized, 400 iff an e-mail, name, status or template-field error, 500 for every other kind, opaque storage errors included |
| HttpHelper.StatusForIsFirstMatch | backend-clean/internal/adapter/http/controller/helper.go:18-31 | StatusFor agrees on every kind with the first matching case of handleError's ordered case list, 500 when none matches |
| HttpHelper.Int32 | backend-clean/internal/adapter/http/controller/helper.go:57 | The result is in the 32-bit signed range and congruent to the input modulo 2^32, and is the input itself when that fits |
| HttpHelper.FieldResponses | backend-clean/internal/adapter/http/controller/helper.go:52-60 | One response field per field, in order, with id, label and required flag copied and the order narrowed to 32 bits |
| HttpHelper.SectionResponses | backend-clean/internal/adapter/http/controller/helper.go:73-82 | One response section per section, in order, with id, field id, label, content and required flag copied |
| HttpHelper.ToTemplateResponse | backend-clean/internal/adapter/http/controller/helper.go:51-70 | Keeps the number and order of fields and copies id, label and required flag per field, with the order narrowed to 32 bits; id, name, owner, usage flag and timestamp are the template's; the owner summary carries only the owner id |
| HttpHelper.TemplateResponseRoundTrip | backend-clean/internal/adapter/http/controller/helper.go:51-70 | Reading a template response back gives the usage record it came from, whenever the template's fields are the record's fields and every order fits 32 bits |
| HttpHelper.LargeOrderWraps | backend-clean/internal/adapter/http/controller/helper.go:57 | An order of 2^31 is read back from the response as -2^31: the round trip needs the 32-bit bound |
| HttpHelper.ToNoteResponse | backend-clean/internal/adapter/http/controller/helper.go:72-99 | Keeps the number and order of sections and copies id, field id and content per section; id, title, template id and name, owner id, status and both timestamps are the note's; the owner summary carries only the owner id |
| HttpHelper.NoteResponseShowsExactly | backend-clean/internal/adapter/http/controller/helper.go:72-99 | Two notes give the same response iff they agree on everything but the note's own section list, the owner's full name, and each joined section's note id and field order |
| HttpHelper.ToAccountResponse | backend-clean/internal/adapter/http/controller/helper.go:33-49 | Id, e-mail address, both names and both timestamps are copied; an empty thumbnail becomes nil, and reading it back gives the thumbnail; a nil last login becomes the zero time |
| HttpHelper.FullNameEmptyIffNamesBlank | backend-clean/internal/adapter/http/controller/helper.go:43 | The full name is empty iff both names are blank |
| HttpHelper.FullNameOfTrimmedNames | backend-clean/internal/adapter/http/controller/helper.go:43 | Two non-empty names without surrounding white space are joined by exactly one space |
| StoreInvariants.NoteCreatePreserves | backend-clean/internal/usecase/note_interactor.go:37-69 | Note Create keeps every note on a stored template with its sections stamped, and only appends to the write log |
| StoreInvariants.NoteUpdatePreserves | backend-clean/internal/usecase/note_interactor.go:71-110 | Note Update keeps the store consistent and only appends to the write log |
| StoreInvariants.NoteChangeStatusPreserves | backend-clean/internal/usecase/note_interactor.go:112-141 | ChangeStatus keeps the store consistent and only appends to the write log |
| StoreInvariants.NoteDeletePreserves | backend-clean/internal/usecase/note_interactor.go:143-152 | Note Delete keeps the store consistent and only appends to the write log |
| StoreInvariants.TemplateCreatePreserves | backend-clean/internal/usecase/template_interactor.go:30-59 | Template Create keeps the store consistent and only appends to the write log |
| StoreInvariants.TemplateUpdatePreserves | backend-clean/internal/usecase/template_interactor.go:61-91 | Template Update keeps the store consistent and only appends to the write log |
| StoreInvariants.TemplateDeletePreserves | backend-clean/internal/usecase/template_interactor.go:93-102 | The in-use check means no note is ever left pointing at a deleted template |
| Scenarios.CreateNoteSucceeds | backend-clean/internal/usecase/note_interactor.go:37-69 | Creating a note on tpl-1 with content "value" for owner-1, with nothing failing, yields a Draft note of owner-1 holding that one section under the new id |
| Scenarios.CreateNoteWithoutOwnerFails | backend-clean/internal/usecase/note_interactor.go:49-53 | An empty owner passes the pre-check, fails with OwnerRequired inside the transaction, and leaves the store as it was |
| Scenarios.CreateNoteWithEmptyRequiredFieldFails | backend-clean/internal/usecase/note_interactor.go:43-46 | An empty required section fails with RequiredFieldEmpty before the transaction, with no write |
| Scenarios.DeleteTemplateInUseFails | backend-clean/internal/usecase/template_interactor.go:93-100 | Deleting the template a stored note uses fails with TemplateInUse and no write |
| Scenarios.UpdateByOtherOwnerFails | backend-clean/internal/usecase/note_interactor.go:71-78 | Another owner's update fails with Unauthorized and no write, whatever the title |
| Scenarios.CreateTemplateRollsBackRoot | backend-clean/internal/usecase/template_interactor.go:39-57 | When the field write fails after the root insert, no trace of the new template remains |
| Scenarios.CreateTemplateAcceptsEmptyName | backend-clean/internal/usecase/template_interactor.go:30-59 | With nothing failing, an empty name and the test's one-field list are accepted |

## Left out

- The `List` and `Get` use cases of notes and templates only pass their arguments to a repository. The repository reads are part of `Store`: `GetNote` and `GetTemplate`, with `IsUsed`.
- The SQL gateways are out because they are database I/O. This includes the template repository's default of order `idx+1` for a field of order 0. The note repository is not part of this model either. Its behaviour is taken to be:
  - `Create` inserts the root with no sections;
  - `Update` writes only the title;
  - `ReplaceSections` fails with NotFound for an absent note.
- Storage failures are per operation kind, with no count: an operation listed as failing fails every time it is called. So a use case that makes the same kind of call twice cannot see the first call succeed and the second fail. Note Create reads the template first and the note only after the commit (`note_interactor.go:38`, `68`), and template Create and Update read the template only after the commit (`template_interactor.go:58`, `90`). All three can therefore show a committed write followed by a failed read-back.
- NoteInteractor.Update: reads the note before the transaction and again after the commit, both with the notes read (`note_interactor.go:72`, `109`). A failing read fails both, so a committed update followed by a failed read-back is not represented; the model never changes the state without succeeding.
- NoteInteractor.ChangeStatus: writes the status outside any transaction and then reads the note back (`note_interactor.go:137-140`). The same read fails before the write, so an applied status write followed by a failed read-back is not represented.
- Requests run one at a time. Concurrent requests, and their interleavings with the checks outside a transaction, are out. So `StoreInvariants.TemplateDeletePreserves` holds only when nothing runs between template Delete's in-use check and its delete (`template_interactor.go:94-101`, no transaction). The same holds for note Update reading the template outside its transaction.
- The template repository's `ReplaceFields` deletes the old field rows and inserts fresh ones, so the database assigns new field ids (`template_repository.go:157-181`). The model's store keeps the field ids the caller passed.
- The note use cases Create, Update and ChangeStatus return the bare stored note. The source returns the store's `WithMeta` read (`note_interactor.go:37`, `71`, `112`), whose joined template name, owner name and section labels come from gateway joins that are not part of this model.
- Context cancellation, the pgx transaction object and rollback errors are out. Rollback is modelled as restoring the snapshot.
- HTTP plumbing is out: controllers, routing, JSON binding, presenters, factories and initializers. So are the OpenAPI types beyond the response fields `HttpHelper` builds.
- Timestamps are opaque values that the core never computes. The database assigns them. The read-side `TemplateName` and `OwnerFullName` come from joins in the gateways.
- The bodies of the validators listed above and of `account.ParseEmail` are not part of this model. They are parameters, constrained only by the repository's tests.
- TemplateInteractor.Create: does not assert the test's `TemplateNameRequired` for an empty name, because the code never checks the name.
- Text.TrimSpace: works on Unicode code points. Go's version works on UTF-8 bytes, so invalid byte sequences are not modelled.
- HttpHelper.ToNoteResponse: states the per-section copy of id, field id and content. The label and required flag are stated by `HttpHelper.SectionResponses`.

## Findings

| source | as written | input that shows it | evidently intended | confidence | as-written member | corrected member |
|---|---|---|---|---|---|---|
| backend-clean/internal/usecase/account_interactor.go:26-36 | The account built for validation never sets `ID`, and `account.Validate` fails with OwnerRequired for a blank id. So every login with a parsable e-mail fails with InvalidName or OwnerRequired, and `UpsertOAuthAccount` is unreachable. | e-mail "a@b.c" (parsable), first name "Ann", provider "google", provider account "123": the result is OwnerRequired, with no upsert | Validate the profile without the id check, which only makes sense after the store assigns an id, then upsert and present | high; not executed | AccountInteractor.CreateOrGet, AccountInteractor.CreateOrGetNeverUpserts | AccountInteractor.CreateOrGetCorrected |
