/** The validators the core calls but whose bodies are not part of this model:
    template.NormalizeAndValidate, note.ValidateNoteForCreate,
    note.ValidateSections, note.ValidateNoteOwnership, note.CanChangeStatus,
    NoteStatus.Validate, service.CanPublish, service.CanUnpublish and
    account.ParseEmail. Each is a field of `Validators`, a parameter of every
    operation that calls it, so nothing is assumed about it beyond its type.
    `PinnedByTests` collects the only facts about them that the repository's
    tests fix. */
module Rules {

  import opened Wrappers
  import opened DomainErrors
  import opened TemplateDomain
  import opened NoteDomain
  import opened AccountDomain
  import opened Timestamps

  datatype Validators = Validators(
    /** template.NormalizeAndValidate; `None` is a nil slice. */
    normalizeAndValidate: seq<Field> -> Result<Option<seq<Field>>>,
    /** note.ValidateNoteForCreate(title, template, sections) */
    validateNoteForCreate: (string, Template, seq<Section>) -> Outcome,
    /** note.ValidateSections(fields, sections) */
    validateSections: (seq<Field>, seq<Section>) -> Outcome,
    /** note.ValidateNoteOwnership(actual owner, claimed owner) */
    validateNoteOwnership: (string, string) -> Outcome,
    /** note.CanChangeStatus(from, to) */
    canChangeStatus: (NoteStatus, NoteStatus) -> Outcome,
    /** NoteStatus.Validate */
    validateStatus: NoteStatus -> Outcome,
    /** service.CanPublish(note, actor) */
    canPublish: (Note, string) -> Outcome,
    /** service.CanUnpublish(note, actor) */
    canUnpublish: (Note, string) -> Outcome,
    /** account.ParseEmail */
    parseEmail: string -> Result<Email>)

  /** The template of the note-lifecycle test: one required field "f1". */
  const PinnedTemplate :=
    Template("tpl-1", "Template", "owner-1", [Field("f1", "Title", 1, true)], ZeroTime)

  /** The field lists of the template-aggregate test. */
  const ValidFieldList := [Field("f1", "Title", 0, false), Field("f2", "Body", 2, false)]
  const UnlabelledFieldList := [Field("f1", "Title", 1, false), Field("f2", "", 2, false)]

  /** What the tests of the aggregate, of BuildNote and of the template
      interactor require of the validators:
      - the valid list normalises to a non-nil list of the same length;
      - a list with an empty label fails with FieldLabelRequired;
      - a one-field list is accepted (and stays non-empty when the field is
        required);
      - a note titled "Note title" whose one section fills the required field
        passes ValidateNoteForCreate, and one with that section empty fails
        with RequiredFieldEmpty. */
  ghost predicate PinnedByTests(v: Validators) {
    && v.normalizeAndValidate(ValidFieldList).Ok?
    && v.normalizeAndValidate(ValidFieldList).value.Some?
    && |v.normalizeAndValidate(ValidFieldList).value.value| == 2
    && v.normalizeAndValidate(UnlabelledFieldList) == Err(FieldLabelRequired)
    && v.normalizeAndValidate([Field("f1", "Title", 1, true)]).Ok?
    && |Elements(v.normalizeAndValidate([Field("f1", "Title", 1, true)]).value)| > 0
    && v.normalizeAndValidate([Field("f1", "Title", 1, false)]).Ok?
    && v.validateNoteForCreate("Note title", PinnedTemplate, [Section("", "", "f1", "value")]) == Pass
    && v.validateNoteForCreate("Note title", PinnedTemplate, [Section("", "", "f1", "")]) == Fail(RequiredFieldEmpty)
  }
}
