/** Concrete scenarios: the repository's test cases and a few use-case
    scenarios, stated as lemmas about the model. Validators are constrained only by
    `PinnedByTests`, plus, where a scenario needs a verdict no test fixes, an
    explicit precondition naming it. */
module Scenarios {

  import opened Wrappers
  import opened DomainErrors
  import opened Timestamps
  import opened TemplateDomain
  import opened NoteDomain
  import opened Rules
  import opened Ports
  import opened DomainService
  import opened Store
  import NoteInteractor
  import TemplateInteractor

  /** A store holding only the pinned template "tpl-1". */
  function WithPinnedTemplate(notes: map<string, Note>, log: seq<Write>): State {
    State(notes, map["tpl-1" := PinnedTemplate], log)
  }

  function CreateRequest(ownerId: string, content: string): NoteCreateInput {
    NoteCreateInput("Note title", "tpl-1", ownerId, [SectionInput("f1", content)])
  }

  /** Creating a note on "tpl-1" with content "value" for "owner-1", when no
      collaborator fails and ValidateSections accepts the stamped section,
      succeeds with a Draft note of "owner-1" holding the one section. */
  lemma CreateNoteSucceeds(v: Validators, env: Env, notes: map<string, Note>, log: seq<Write>)
    requires PinnedByTests(v)
    requires env.faults == {} && env.newNoteId !in notes
    requires v.validateSections(PinnedTemplate.fields, [Section("", env.newNoteId, "f1", "value")]) == Pass
    ensures var r := NoteInteractor.Create(v, env, WithPinnedTemplate(notes, log), CreateRequest("owner-1", "value"));
            && r.result.Ok?
            && r.result.value.status == StatusDraft
            && r.result.value.ownerId == "owner-1"
            && r.result.value.sections == [Section("", env.newNoteId, "f1", "value")]
  {
    var s := WithPinnedTemplate(notes, log);
    var input := CreateRequest("owner-1", "value");
    assert GetTemplate(env, s, "tpl-1") == Ok(WithUsage(PinnedTemplate, PinnedTemplate.fields, IsUsed(s, "tpl-1")));
    var sections := NoteInteractor.BuildSections("", PinnedTemplate.fields, input.sections);
    assert sections == [Section("", "", "f1", "value")];
    var withId := NoteInteractor.BuildSections(env.newNoteId, PinnedTemplate.fields, input.sections);
    assert withId == [Section("", env.newNoteId, "f1", "value")];
    var tx := NoteInteractor.CreateTx(v, env, input, PinnedTemplate, sections, s);
    assert tx.result == Ok(env.newNoteId);
  }

  /** The same request with an empty owner passes ValidateNoteForCreate but
      fails with OwnerRequired inside the transaction, which is rolled back. */
  lemma CreateNoteWithoutOwnerFails(v: Validators, env: Env, notes: map<string, Note>, log: seq<Write>)
    requires PinnedByTests(v)
    requires Begin !in env.faults && TemplatesGet !in env.faults
    ensures var s := WithPinnedTemplate(notes, log);
            NoteInteractor.Create(v, env, s, CreateRequest("", "value")) == Run(s, Err(OwnerRequired))
  {
    var s := WithPinnedTemplate(notes, log);
    var input := CreateRequest("", "value");
    var sections := NoteInteractor.BuildSections("", PinnedTemplate.fields, input.sections);
    assert sections == [Section("", "", "f1", "value")];
    var tx := NoteInteractor.CreateTx(v, env, input, PinnedTemplate, sections, s);
    assert tx.result == Err(OwnerRequired);
  }

  /** An empty required section fails with RequiredFieldEmpty before the
      transaction begins. */
  lemma CreateNoteWithEmptyRequiredFieldFails(v: Validators, env: Env, notes: map<string, Note>, log: seq<Write>)
    requires PinnedByTests(v)
    requires TemplatesGet !in env.faults
    ensures var s := WithPinnedTemplate(notes, log);
            NoteInteractor.Create(v, env, s, CreateRequest("owner-1", "")) == Run(s, Err(RequiredFieldEmpty))
  {
    var sections := NoteInteractor.BuildSections("", PinnedTemplate.fields, [SectionInput("f1", "")]);
    assert sections == [Section("", "", "f1", "")];
  }

  /** A template that a note refers to cannot be deleted, and nothing is
      written. */
  lemma DeleteTemplateInUseFails(env: Env, s: State, noteId: string)
    requires TemplatesGet !in env.faults
    requires noteId in s.notes && s.notes[noteId].templateId in s.templates
    ensures var id := s.notes[noteId].templateId;
            TemplateInteractor.Delete(env, s, id) == Run(s, Err(TemplateInUse))
  {
    assert IsUsed(s, s.notes[noteId].templateId);
  }

  /** A note of "owner-1" updated by "owner-2" fails with the ownership
      check's error and nothing is written, whatever the title. */
  lemma UpdateByOtherOwnerFails(v: Validators, env: Env, s: State, input: NoteUpdateInput)
    requires NotesGet !in env.faults
    requires input.id in s.notes && s.notes[input.id].ownerId == "owner-1" && input.ownerId == "owner-2"
    requires v.validateNoteOwnership("owner-1", "owner-2") == Fail(Unauthorized)
    ensures NoteInteractor.Update(v, env, s, input) == Run(s, Err(Unauthorized))
  {
  }

  /** When the field replacement fails after the root insert, Create leaves
      no trace of the new template. */
  lemma CreateTemplateRollsBackRoot(v: Validators, env: Env, s: State, input: TemplateCreateInput)
    requires |input.fields| > 0 && v.normalizeAndValidate(input.fields).Ok?
    requires |Elements(v.normalizeAndValidate(input.fields).value)| > 0
    requires TemplatesReplaceFields in env.faults && env.newTemplateId !in s.templates
    ensures TemplateInteractor.Create(v, env, s, input).state == s
    ensures env.newTemplateId !in TemplateInteractor.Create(v, env, s, input).state.templates
  {
  }

  /** Create never looks at the name: with the test's one-field list and no
      failing collaborator, an empty name is accepted (the test that expects
      TemplateNameRequired here does not match the code). */
  lemma CreateTemplateAcceptsEmptyName(v: Validators, env: Env, s: State)
    requires PinnedByTests(v)
    requires env.faults == {} && env.newTemplateId !in s.templates
    ensures TemplateInteractor.Create(v, env, s,
              TemplateCreateInput("", "owner-1", [Field("f1", "Title", 1, false)])).result.Ok?
  {
  }
}
