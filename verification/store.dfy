/** The note and template repositories as one explicit store, and the unit of
    work that runs a callback against it (backend-clean/internal/driver/db/tx.go).

    The store holds the notes (with their sections) and the templates (with
    their fields) by id, plus a log of every write it has accepted. Each
    repository method is a function from a state to a new state and a
    result. A failing collaborator is modelled by `Env.faults`: an operation
    named there fails, with an opaque error and no effect, every time it is
    called. The ids the database would generate for a new note or template are
    `Env.newNoteId` and `Env.newTemplateId`; inserting under an id already
    taken fails like a unique-key violation. */
module Store {

  import opened DomainErrors
  import opened TemplateDomain
  import opened NoteDomain

  /** The collaborator calls that can fail. */
  datatype Op =
    | Begin | Commit
    | NotesGet | NotesCreate | NotesUpdate | NotesUpdateStatus | NotesDelete | NotesReplaceSections
    | TemplatesGet | TemplatesCreate | TemplatesUpdate | TemplatesDelete | TemplatesReplaceFields

  datatype Env = Env(faults: set<Op>, newNoteId: string, newTemplateId: string)

  /** One accepted write. */
  datatype Write =
    | NoteCreated(noteId: string)
    | NoteTitleUpdated(noteId: string, title: string)
    | NoteStatusUpdated(noteId: string, status: NoteStatus)
    | NoteDeleted(noteId: string)
    | SectionsReplaced(noteId: string, sections: seq<Section>)
    | TemplateCreated(templateId: string)
    | TemplateRenamed(templateId: string, name: string)
    | TemplateDeleted(templateId: string)
    | FieldsReplaced(templateId: string, fields: seq<Field>)

  datatype State = State(notes: map<string, Note>, templates: map<string, Template>, log: seq<Write>)

  /** The state after a call together with the call's result. */
  datatype Run<T> = Run(state: State, result: Result<T>)

  /** The name of a collaborator call, as a storage error reports it. */
  function OpName(op: Op): string {
    match op
    case Begin => "begin" case Commit => "commit"
    case NotesGet => "notes.get" case NotesCreate => "notes.create"
    case NotesUpdate => "notes.update" case NotesUpdateStatus => "notes.update_status"
    case NotesDelete => "notes.delete" case NotesReplaceSections => "notes.replace_sections"
    case TemplatesGet => "templates.get" case TemplatesCreate => "templates.create"
    case TemplatesUpdate => "templates.update" case TemplatesDelete => "templates.delete"
    case TemplatesReplaceFields => "templates.replace_fields"
  }

  /** The opaque error a failing call returns; it names the call. */
  function Failure(op: Op): ErrorKind {
    Opaque(OpName(op))
  }

  /** Two different failing calls never report the same error. */
  lemma FailureNamesTheCall(a: Op, b: Op)
    ensures Failure(a) == Failure(b) <==> a == b
  {
    if a != b {
      assert OpName(a) != OpName(b);
    }
  }

  /** The error of an insert under an id that is already taken. */
  const DuplicateKey := Opaque("duplicate key")

  // ---- note repository ----

  /** Reads a note; its id is the key it is stored under. */
  function GetNote(env: Env, s: State, id: string): Result<Note> {
    if NotesGet in env.faults then Err(Failure(NotesGet))
    else if id !in s.notes then Err(NotFound)
    else Ok(s.notes[id].(id := id))
  }

  /** Inserts the note's root row under a new id; sections are written
      separately by `ReplaceSections`. */
  function CreateNote(env: Env, s: State, n: Note): Run<Note> {
    var id := env.newNoteId;
    if NotesCreate in env.faults then Run(s, Err(Failure(NotesCreate)))
    else if id in s.notes then Run(s, Err(DuplicateKey))
    else
      var stored := n.(id := id, sections := []);
      Run(s.(notes := s.notes[id := stored], log := s.log + [NoteCreated(id)]), Ok(stored))
  }

  /** Updates a note's title. */
  function UpdateNoteTitle(env: Env, s: State, id: string, title: string): Run<()> {
    if NotesUpdate in env.faults then Run(s, Err(Failure(NotesUpdate)))
    else if id !in s.notes then Run(s, Err(NotFound))
    else Run(s.(notes := s.notes[id := s.notes[id].(title := title)],
                log := s.log + [NoteTitleUpdated(id, title)]), Ok(()))
  }

  function UpdateNoteStatus(env: Env, s: State, id: string, status: NoteStatus): Run<()> {
    if NotesUpdateStatus in env.faults then Run(s, Err(Failure(NotesUpdateStatus)))
    else if id !in s.notes then Run(s, Err(NotFound))
    else Run(s.(notes := s.notes[id := s.notes[id].(status := status)],
                log := s.log + [NoteStatusUpdated(id, status)]), Ok(()))
  }

  /** Deletes a note and, with it, its sections. */
  function DeleteNote(env: Env, s: State, id: string): Run<()> {
    if NotesDelete in env.faults then Run(s, Err(Failure(NotesDelete)))
    else Run(s.(notes := s.notes - {id}, log := s.log + [NoteDeleted(id)]), Ok(()))
  }

  /** Deletes all of a note's sections and inserts the given ones. */
  function ReplaceSections(env: Env, s: State, noteId: string, sections: seq<Section>): Run<()> {
    if NotesReplaceSections in env.faults then Run(s, Err(Failure(NotesReplaceSections)))
    else if noteId !in s.notes then Run(s, Err(NotFound))
    else Run(s.(notes := s.notes[noteId := s.notes[noteId].(sections := sections)],
                log := s.log + [SectionsReplaced(noteId, sections)]), Ok(()))
  }

  // ---- template repository ----

  /** Whether any note refers to the template. */
  predicate IsUsed(s: State, templateId: string) {
    exists k :: k in s.notes && s.notes[k].templateId == templateId
  }

  /** Reads a template with its fields and usage flag. */
  function GetTemplate(env: Env, s: State, id: string): Result<WithUsage> {
    if TemplatesGet in env.faults then Err(Failure(TemplatesGet))
    else if id !in s.templates then Err(NotFound)
    else
      var t := s.templates[id].(id := id);
      Ok(WithUsage(t, t.fields, IsUsed(s, id)))
  }

  /** Inserts the template's root row (name and owner) under a new id. */
  function CreateTemplate(env: Env, s: State, t: Template): Run<Template> {
    var id := env.newTemplateId;
    if TemplatesCreate in env.faults then Run(s, Err(Failure(TemplatesCreate)))
    else if id in s.templates then Run(s, Err(DuplicateKey))
    else
      var stored := t.(id := id, fields := []);
      Run(s.(templates := s.templates[id := stored], log := s.log + [TemplateCreated(id)]), Ok(stored))
  }

  /** Updates a template's name. */
  function RenameTemplate(env: Env, s: State, id: string, name: string): Run<()> {
    if TemplatesUpdate in env.faults then Run(s, Err(Failure(TemplatesUpdate)))
    else if id !in s.templates then Run(s, Err(NotFound))
    else Run(s.(templates := s.templates[id := s.templates[id].(name := name)],
                log := s.log + [TemplateRenamed(id, name)]), Ok(()))
  }

  function DeleteTemplate(env: Env, s: State, id: string): Run<()> {
    if TemplatesDelete in env.faults then Run(s, Err(Failure(TemplatesDelete)))
    else Run(s.(templates := s.templates - {id}, log := s.log + [TemplateDeleted(id)]), Ok(()))
  }

  /** Deletes all of a template's fields and inserts the given ones. */
  function ReplaceFields(env: Env, s: State, templateId: string, fields: seq<Field>): Run<()> {
    if TemplatesReplaceFields in env.faults then Run(s, Err(Failure(TemplatesReplaceFields)))
    else if templateId !in s.templates then Run(s, Err(NotFound))
    else Run(s.(templates := s.templates[templateId := s.templates[templateId].(fields := fields)],
                log := s.log + [FieldsReplaced(templateId, fields)]), Ok(()))
  }

  // ---- unit of work ----

  /** Begins a transaction, runs `fn` on the transaction's view of the state,
      rolls back and returns the callback's error if it fails, and commits
      otherwise. A failed begin or commit leaves the state as it was. So the
      state afterwards is either the state before, or exactly the callback's
      state, and the latter only when the whole run succeeded. */
  function WithinTransaction<T>(env: Env, s: State, fn: State -> Run<T>): (r: Run<T>)
    ensures r.result.Err? ==> r.state == s
    ensures r.result.Ok? ==> r == fn(s)
    ensures Begin in env.faults ==> r == Run(s, Err(Failure(Begin)))
    ensures Begin !in env.faults && fn(s).result.Err? ==> r.result == fn(s).result
    ensures Begin !in env.faults && fn(s).result.Ok? && Commit in env.faults ==> r == Run(s, Err(Failure(Commit)))
    ensures Begin !in env.faults && Commit !in env.faults ==> r.result == fn(s).result
  {
    if Begin in env.faults then Run(s, Err(Failure(Begin)))
    else
      var attempt := fn(s);
      if attempt.result.Err? then Run(s, attempt.result)
      else if Commit in env.faults then Run(s, Err(Failure(Commit)))
      else attempt
  }

  // ---- store invariants ----

  /** Every note refers to a template that exists. */
  ghost predicate NotesReferenceTemplates(s: State) {
    forall k :: k in s.notes ==> s.notes[k].templateId in s.templates
  }

  /** Every stored section belongs to the note it is stored under. */
  ghost predicate SectionsStamped(s: State) {
    forall k :: k in s.notes ==> forall sec :: sec in s.notes[k].sections ==> sec.noteId == k
  }

  ghost predicate Consistent(s: State) {
    NotesReferenceTemplates(s) && SectionsStamped(s)
  }
}
