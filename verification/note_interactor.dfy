/** The note use cases (backend-clean/internal/usecase/note_interactor.go) as
    functions over the explicit store. Each one runs its checks against the
    state it was given and returns that same state whenever a check fails;
    multi-write sequences run inside `WithinTransaction`. */
module NoteInteractor {

  import opened Wrappers
  import opened DomainErrors
  import opened Timestamps
  import opened Text
  import opened TemplateDomain
  import opened NoteDomain
  import opened Rules
  import opened Ports
  import opened DomainService
  import opened Store

  // ---- buildSections ----

  /** Gives every section the note id. */
  function StampNoteId(sections: seq<Section>, noteId: string): (r: seq<Section>)
    ensures |r| == |sections|
    ensures forall i :: 0 <= i < |r| ==> r[i] == sections[i].(noteId := noteId)
  {
    if sections == [] then []
    else [sections[0].(noteId := noteId)] + StampNoteId(sections[1..], noteId)
  }

  /** One section per caller input, copying field id and content. */
  function SectionsFromInputs(noteId: string, inputs: seq<SectionInput>): (r: seq<Section>)
    ensures |r| == |inputs|
    ensures forall i :: 0 <= i < |r| ==>
              r[i] == Section("", noteId, inputs[i].fieldId, inputs[i].content)
  {
    if inputs == [] then []
    else [Section("", noteId, inputs[0].fieldId, inputs[0].content)]
         + SectionsFromInputs(noteId, inputs[1..])
  }

  /** With no inputs, the template's empty sections; otherwise one section per
      input in input order, the template fields ignored. Either way every
      section carries `noteId`. */
  function BuildSections(noteId: string, fields: seq<Field>, inputs: seq<SectionInput>): (r: seq<Section>)
    ensures |inputs| == 0 ==>
              && |r| == |fields|
              && forall i :: 0 <= i < |r| ==> r[i] == Section("", noteId, fields[i].id, "")
    ensures |inputs| > 0 ==>
              && |r| == |inputs|
              && forall i :: 0 <= i < |r| ==> r[i] == Section("", noteId, inputs[i].fieldId, inputs[i].content)
    ensures forall sec :: sec in r ==> sec.noteId == noteId
  {
    if |inputs| == 0 then StampNoteId(BuildSectionsFromTemplate(fields), noteId)
    else SectionsFromInputs(noteId, inputs)
  }

  /** Building under an id is building with no id and stamping it later: the
      sections Create checks before the transaction (no id yet) and the ones
      it writes under the new id differ only in their note id. */
  lemma BuildSectionsStampsLater(noteId: string, fields: seq<Field>, inputs: seq<SectionInput>)
    ensures BuildSections(noteId, fields, inputs) == StampNoteId(BuildSections("", fields, inputs), noteId)
  {
    var later, now := StampNoteId(BuildSections("", fields, inputs), noteId), BuildSections(noteId, fields, inputs);
    assert |later| == |now|;
    forall i | 0 <= i < |now|
      ensures now[i] == later[i]
    {
    }
  }

  // ---- Create ----

  /** The Draft note Create stores under `id` for a template. */
  ghost function DraftFor(input: NoteCreateInput, tpl: Template, id: string): Note {
    Note(id, input.title, tpl.id, input.ownerId, StatusDraft,
         BuildSections(id, tpl.fields, input.sections), ZeroTime, ZeroTime)
  }

  /** The state after a committed Create: the Draft note under `id`, with its
      root insert and then its section replacement logged. */
  ghost function WithNewNote(s: State, input: NoteCreateInput, tpl: Template, id: string): State {
    s.(notes := s.notes[id := DraftFor(input, tpl, id)],
       log := s.log + [NoteCreated(id), SectionsReplaced(id, DraftFor(input, tpl, id).sections)])
  }

  /** The state after Create's root insert alone: the Draft note under `id`
      with no sections yet, and the insert logged. */
  ghost function WithRoot(s: State, input: NoteCreateInput, tpl: Template, id: string): State {
    s.(notes := s.notes[id := DraftFor(input, tpl, id).(sections := [])], log := s.log + [NoteCreated(id)])
  }

  /** The transaction body of Create: build the note, insert its root, then
      validate and write its sections under the new id. BuildNote's error
      comes with no write. Success leaves exactly the new Draft note and its
      two writes. Any other failure leaves either no trace or the bare root,
      for the transaction to roll back; the latter only when the section
      check or the section write failed. */
  function CreateTx(v: Validators, env: Env, input: NoteCreateInput, tpl: Template,
                    sections: seq<Section>, s: State): (r: Run<string>)
    ensures var built := FirstFailure([v.validateNoteForCreate(input.title, tpl, sections),
                                       Need(input.ownerId != "", OwnerRequired)]);
            built.Fail? ==> r == Run(s, Err(built.error))
    ensures var id := env.newNoteId;
            r.result.Ok? ==>
              && id !in s.notes
              && v.validateSections(tpl.fields, BuildSections(id, tpl.fields, input.sections)) == Pass
              && r == Run(WithNewNote(s, input, tpl, id), Ok(id))
    ensures var id := env.newNoteId;
            r.result.Err? ==>
              || r.state == s
              || (&& id !in s.notes
                  && r.state == WithRoot(s, input, tpl, id)
                  && (|| r.result.error == Failure(NotesReplaceSections)
                      || v.validateSections(tpl.fields, BuildSections(id, tpl.fields, input.sections))
                           == Fail(r.result.error)))
    ensures var id := env.newNoteId;
            var checked := v.validateSections(tpl.fields, BuildSections(id, tpl.fields, input.sections));
            (&& FirstFailure([v.validateNoteForCreate(input.title, tpl, sections),
                              Need(input.ownerId != "", OwnerRequired)]) == Pass
             && NotesCreate !in env.faults && id !in s.notes) ==>
              && (checked.Fail? ==> r == Run(WithRoot(s, input, tpl, id), Err(checked.error)))
              && (checked.Pass? && NotesReplaceSections !in env.faults ==> r.result.Ok?)
              && (checked.Pass? && NotesReplaceSections in env.faults ==>
                    r == Run(WithRoot(s, input, tpl, id), Err(Failure(NotesReplaceSections))))
    ensures FirstFailure([v.validateNoteForCreate(input.title, tpl, sections),
                          Need(input.ownerId != "", OwnerRequired)]) == Pass ==>
              && (NotesCreate in env.faults ==> r == Run(s, Err(Failure(NotesCreate))))
              && (NotesCreate !in env.faults && env.newNoteId in s.notes ==> r == Run(s, Err(DuplicateKey)))
  {
    var built := BuildNote(v, input.title, tpl, input.ownerId, sections);
    if built.err.Fail? then Run(s, Err(built.err.error))
    else
      var created := CreateNote(env, s, built.value);
      if created.result.Err? then Run(created.state, Err(created.result.error))
      else
        var noteId := created.result.value.id;
        var withId := BuildSections(noteId, tpl.fields, input.sections);
        var checked := v.validateSections(tpl.fields, withId);
        if checked.Fail? then Run(created.state, Err(checked.error))
        else
          var replaced := ReplaceSections(env, created.state, noteId, withId);
          if replaced.result.Err? then Run(replaced.state, Err(replaced.result.error))
          else Run(replaced.state, Ok(noteId))
  }

  /** Creates a note. A missing template and a failing ValidateNoteForCreate
      are reported before the transaction, with no write. Inside it, the root
      and the sections are written together or not at all: the state
      afterwards is the one before, or it holds exactly one new Draft note of
      the caller's title, template and owner, whose sections are built under
      the new id, with the log extended by the root insert and the section
      replacement in that order. That happens only when the owner is non-empty
      and both validations passed; a success returns the stored note. */
  function Create(v: Validators, env: Env, s: State, input: NoteCreateInput): (r: Run<Note>)
    ensures GetTemplate(env, s, input.templateId).Err? ==>
              r == Run(s, Err(GetTemplate(env, s, input.templateId).error))
    ensures GetTemplate(env, s, input.templateId).Ok? ==>
              var tpl := GetTemplate(env, s, input.templateId).value.template;
              var checked := v.validateNoteForCreate(input.title, tpl, BuildSections("", tpl.fields, input.sections));
              checked.Fail? ==> r == Run(s, Err(checked.error))
    ensures r.state == s || (
              && GetTemplate(env, s, input.templateId).Ok?
              && var tpl := GetTemplate(env, s, input.templateId).value.template;
                 var id := env.newNoteId;
                 && input.ownerId != ""
                 && v.validateNoteForCreate(input.title, tpl, BuildSections("", tpl.fields, input.sections)) == Pass
                 && v.validateSections(tpl.fields, BuildSections(id, tpl.fields, input.sections)) == Pass
                 && id !in s.notes
                 && r.state == WithNewNote(s, input, tpl, id))
    ensures r.result.Ok? ==> r.state != s && r.result.value == r.state.notes[env.newNoteId]
    ensures GetTemplate(env, s, input.templateId).Ok? ==>
              var tpl := GetTemplate(env, s, input.templateId).value.template;
              var id := env.newNoteId;
              var checked := v.validateSections(tpl.fields, BuildSections(id, tpl.fields, input.sections));
              v.validateNoteForCreate(input.title, tpl, BuildSections("", tpl.fields, input.sections)) == Pass ==>
                && (Begin in env.faults ==> r == Run(s, Err(Failure(Begin))))
                && (Begin !in env.faults && input.ownerId == "" ==> r == Run(s, Err(OwnerRequired)))
                && (Begin !in env.faults && input.ownerId != "" ==>
                      && (NotesCreate in env.faults ==> r == Run(s, Err(Failure(NotesCreate))))
                      && (NotesCreate !in env.faults && id in s.notes ==> r == Run(s, Err(DuplicateKey)))
                      && (NotesCreate !in env.faults && id !in s.notes ==>
                            && (checked.Fail? ==> r == Run(s, Err(checked.error)))
                            && (checked.Pass? && NotesReplaceSections in env.faults ==>
                                  r == Run(s, Err(Failure(NotesReplaceSections))))
                            && (checked.Pass? && NotesReplaceSections !in env.faults && Commit in env.faults ==>
                                  r == Run(s, Err(Failure(Commit))))
                            && (checked.Pass? && NotesReplaceSections !in env.faults && Commit !in env.faults ==>
                                  r == Run(WithNewNote(s, input, tpl, id),
                                           if NotesGet in env.faults then Err(Failure(NotesGet))
                                           else Ok(DraftFor(input, tpl, id))))))
  {
    match GetTemplate(env, s, input.templateId)
    case Err(e) => Run(s, Err(e))
    case Ok(found) =>
      var tpl := found.template;
      var sections := BuildSections("", tpl.fields, input.sections);
      var checked := v.validateNoteForCreate(input.title, tpl, sections);
      if checked.Fail? then Run(s, Err(checked.error))
      else
        var tx := WithinTransaction(env, s, (ts: State) => CreateTx(v, env, input, tpl, sections, ts));
        if tx.result.Err? then Run(tx.state, Err(tx.result.error))
        else Run(tx.state, GetNote(env, tx.state, tx.result.value))
  }

  // ---- Update ----

  /** The state after Update's title write alone. */
  ghost function Retitled(s: State, id: string, title: string): State
    requires id in s.notes
  {
    s.(notes := s.notes[id := s.notes[id].(title := title)], log := s.log + [NoteTitleUpdated(id, title)])
  }

  /** The transaction body of Update: rename, then, when section edits are
      given, rebuild the whole section list against the note's template and
      replace it. The template is read through the outer context, that is from
      `outer`, the state before the transaction, as the source passes `ctx`
      rather than `txCtx` to that read. */
  function UpdateTx(v: Validators, env: Env, input: NoteUpdateInput, current: Note,
                    outer: State, s: State): (r: Run<()>)
    ensures r.result.Ok? ==> |r.state.log| > |s.log|
    ensures r.result.Ok? ==>
              && input.id in s.notes
              && (input.sections.None? ==>
                    r.state == s.(notes := s.notes[input.id := s.notes[input.id].(title := input.title)],
                                  log := s.log + [NoteTitleUpdated(input.id, input.title)]))
              && (input.sections.Some? ==>
                    && current.templateId in outer.templates
                    && var fields := outer.templates[current.templateId].fields;
                       var sections := BuildSections(current.id, fields, input.sections.value);
                       && v.validateSections(fields, sections) == Pass
                       && r.state == s.(notes := s.notes[input.id := s.notes[input.id].(title := input.title,
                                                                                        sections := sections)],
                                        log := s.log + [NoteTitleUpdated(input.id, input.title),
                                                        SectionsReplaced(input.id, sections)]))
    ensures (&& input.sections.Some? && NotesUpdate !in env.faults && input.id in s.notes
             && GetTemplate(env, outer, current.templateId).Ok?) ==>
              var fields := outer.templates[current.templateId].fields;
              var checked := v.validateSections(fields, BuildSections(current.id, fields, input.sections.value));
              checked.Fail? ==> r.result == Err(checked.error)
    ensures (&& NotesUpdate !in env.faults && input.id in s.notes
             && (input.sections.Some? ==>
                   && TemplatesGet !in env.faults && current.templateId in outer.templates
                   && NotesReplaceSections !in env.faults
                   && var fields := outer.templates[current.templateId].fields;
                      v.validateSections(fields, BuildSections(current.id, fields, input.sections.value)) == Pass))
            ==> r.result.Ok?
    ensures NotesUpdate in env.faults ==> r == Run(s, Err(Failure(NotesUpdate)))
    ensures NotesUpdate !in env.faults && input.id !in s.notes ==> r == Run(s, Err(NotFound))
    ensures NotesUpdate !in env.faults && input.id in s.notes && input.sections.Some? ==>
              var titled := Retitled(s, input.id, input.title);
              && (TemplatesGet in env.faults ==> r == Run(titled, Err(Failure(TemplatesGet))))
              && (TemplatesGet !in env.faults && current.templateId !in outer.templates ==>
                    r == Run(titled, Err(NotFound)))
              && (TemplatesGet !in env.faults && current.templateId in outer.templates ==>
                    var fields := outer.templates[current.templateId].fields;
                    var checked := v.validateSections(fields, BuildSections(current.id, fields, input.sections.value));
                    && (checked.Fail? ==> r == Run(titled, Err(checked.error)))
                    && (checked.Pass? && NotesReplaceSections in env.faults ==>
                          r == Run(titled, Err(Failure(NotesReplaceSections)))))
  {
    var renamed := UpdateNoteTitle(env, s, input.id, input.title);
    if renamed.result.Err? || input.sections.None? then renamed
    else
      match GetTemplate(env, outer, current.templateId)
      case Err(e) => Run(renamed.state, Err(e))
      case Ok(found) =>
        var fields := found.template.fields;
        var sections := BuildSections(current.id, fields, input.sections.value);
        var checked := v.validateSections(fields, sections);
        if checked.Fail? then Run(renamed.state, Err(checked.error))
        else ReplaceSections(env, renamed.state, input.id, sections)
  }

  /** The state after a committed Update of a stored note: the new title
      and, when section edits are given, the section list rebuilt against the
      note's template, with the matching writes logged. */
  ghost function Revised(s: State, input: NoteUpdateInput): State
    requires input.id in s.notes
    requires input.sections.Some? ==> s.notes[input.id].templateId in s.templates
  {
    var note := s.notes[input.id];
    if input.sections.None? then
      s.(notes := s.notes[input.id := note.(title := input.title)],
         log := s.log + [NoteTitleUpdated(input.id, input.title)])
    else
      var sections := BuildSections(input.id, s.templates[note.templateId].fields, input.sections.value);
      s.(notes := s.notes[input.id := note.(title := input.title, sections := sections)],
         log := s.log + [NoteTitleUpdated(input.id, input.title), SectionsReplaced(input.id, sections)])
  }

  /** The note's checks before Update writes: ownership, then a title that is
      not blank. */
  function UpdateChecks(v: Validators, current: Note, input: NoteUpdateInput): seq<Outcome> {
    [v.validateNoteOwnership(current.ownerId, input.ownerId), Need(!Blank(input.title), TitleRequired)]
  }

  /** Updates a note. A missing note, a failed ownership check and then a
      blank title are reported before any write. Without section edits only
      the title changes; with edits (even an empty list, which synthesises the
      template's empty sections) the title and the whole section list change
      together or not at all, and only when ValidateSections accepted the
      rebuilt list. */
  function Update(v: Validators, env: Env, s: State, input: NoteUpdateInput): (r: Run<Note>)
    ensures GetNote(env, s, input.id).Err? ==> r == Run(s, Err(GetNote(env, s, input.id).error))
    ensures GetNote(env, s, input.id).Ok? ==>
              var checks := FirstFailure(UpdateChecks(v, GetNote(env, s, input.id).value, input));
              checks.Fail? ==> r == Run(s, Err(checks.error))
    ensures r.state == s || (
              && input.id in s.notes
              && FirstFailure(UpdateChecks(v, GetNote(env, s, input.id).value, input)) == Pass
              && (input.sections.None? ==>
                    r.state == s.(notes := s.notes[input.id := s.notes[input.id].(title := input.title)],
                                  log := s.log + [NoteTitleUpdated(input.id, input.title)]))
              && (input.sections.Some? ==>
                    && s.notes[input.id].templateId in s.templates
                    && var fields := s.templates[s.notes[input.id].templateId].fields;
                       var sections := BuildSections(input.id, fields, input.sections.value);
                       && v.validateSections(fields, sections) == Pass
                       && r.state == s.(notes := s.notes[input.id := s.notes[input.id].(title := input.title,
                                                                                        sections := sections)],
                                        log := s.log + [NoteTitleUpdated(input.id, input.title),
                                                        SectionsReplaced(input.id, sections)])))
    ensures r.result.Ok? ==> r.state != s && r.result.value == r.state.notes[input.id].(id := input.id)
    ensures (&& GetNote(env, s, input.id).Ok?
             && FirstFailure(UpdateChecks(v, GetNote(env, s, input.id).value, input)) == Pass
             && Begin !in env.faults && NotesUpdate !in env.faults
             && input.sections.Some? && TemplatesGet !in env.faults
             && s.notes[input.id].templateId in s.templates) ==>
              var fields := s.templates[s.notes[input.id].templateId].fields;
              var checked := v.validateSections(fields, BuildSections(input.id, fields, input.sections.value));
              checked.Fail? ==> r == Run(s, Err(checked.error))
    ensures (&& GetNote(env, s, input.id).Ok?
             && FirstFailure(UpdateChecks(v, GetNote(env, s, input.id).value, input)) == Pass
             && Begin !in env.faults && Commit !in env.faults && NotesUpdate !in env.faults
             && (input.sections.Some? ==>
                   && TemplatesGet !in env.faults && NotesReplaceSections !in env.faults
                   && s.notes[input.id].templateId in s.templates
                   && var fields := s.templates[s.notes[input.id].templateId].fields;
                      v.validateSections(fields, BuildSections(input.id, fields, input.sections.value)) == Pass)) ==>
              && r.state == Revised(s, input)
              && r.result == Ok(Revised(s, input).notes[input.id].(id := input.id))
    ensures (&& GetNote(env, s, input.id).Ok?
             && FirstFailure(UpdateChecks(v, GetNote(env, s, input.id).value, input)) == Pass) ==>
              var tid := s.notes[input.id].templateId;
              && (Begin in env.faults ==> r == Run(s, Err(Failure(Begin))))
              && (Begin !in env.faults && NotesUpdate in env.faults ==> r == Run(s, Err(Failure(NotesUpdate))))
              && (Begin !in env.faults && NotesUpdate !in env.faults && input.sections.Some? ==>
                    && (TemplatesGet in env.faults ==> r == Run(s, Err(Failure(TemplatesGet))))
                    && (TemplatesGet !in env.faults && tid !in s.templates ==> r == Run(s, Err(NotFound)))
                    && (TemplatesGet !in env.faults && tid in s.templates ==>
                          var fields := s.templates[tid].fields;
                          var checked := v.validateSections(fields, BuildSections(input.id, fields, input.sections.value));
                          checked.Pass? && NotesReplaceSections in env.faults ==>
                            r == Run(s, Err(Failure(NotesReplaceSections)))))
              && ((&& Begin !in env.faults && NotesUpdate !in env.faults && Commit in env.faults
                   && (input.sections.Some? ==>
                         && TemplatesGet !in env.faults && NotesReplaceSections !in env.faults
                         && tid in s.templates
                         && var fields := s.templates[tid].fields;
                            v.validateSections(fields, BuildSections(input.id, fields, input.sections.value)) == Pass)) ==>
                    r == Run(s, Err(Failure(Commit))))
  {
    match GetNote(env, s, input.id)
    case Err(e) => Run(s, Err(e))
    case Ok(current) =>
      var owned := v.validateNoteOwnership(current.ownerId, input.ownerId);
      FirstFailureOfTwo(owned, Need(!Blank(input.title), TitleRequired));
      if owned.Fail? then Run(s, Err(owned.error))
      else if Blank(input.title) then Run(s, Err(TitleRequired))
      else
        var tx := WithinTransaction(env, s, (ts: State) => UpdateTx(v, env, input, current, s, ts));
        if tx.result.Err? then Run(tx.state, Err(tx.result.error))
        else Run(tx.state, GetNote(env, tx.state, input.id))
  }

  // ---- ChangeStatus ----

  /** The checks of ChangeStatus in the order the source runs them:
      ownership, the target status's validity, CanPublish for a "Publish"
      target and CanUnpublish for any other, then CanChangeStatus. */
  function StatusChecks(v: Validators, current: Note, input: NoteStatusChangeInput): seq<Outcome> {
    [ v.validateNoteOwnership(current.ownerId, input.ownerId),
      v.validateStatus(input.status),
      if input.status == StatusPublish then v.canPublish(current, input.ownerId)
      else v.canUnpublish(current, input.ownerId),
      v.canChangeStatus(current.status, input.status) ]
  }

  /** Changes a note's status. A missing note is reported first; otherwise
      the result is the first failing status check, with no write, or the one
      status update, which changes nothing but that note's status. */
  function ChangeStatus(v: Validators, env: Env, s: State, input: NoteStatusChangeInput): (r: Run<Note>)
    ensures GetNote(env, s, input.id).Err? ==> r == Run(s, Err(GetNote(env, s, input.id).error))
    ensures GetNote(env, s, input.id).Ok? ==>
              var checks := FirstFailure(StatusChecks(v, GetNote(env, s, input.id).value, input));
              checks.Fail? ==> r == Run(s, Err(checks.error))
    ensures r.state == s || (
              && input.id in s.notes
              && FirstFailure(StatusChecks(v, GetNote(env, s, input.id).value, input)) == Pass
              && r.state == s.(notes := s.notes[input.id := s.notes[input.id].(status := input.status)],
                               log := s.log + [NoteStatusUpdated(input.id, input.status)]))
    ensures r.result.Ok? ==> r.state != s && r.result.value.status == input.status
    ensures (&& GetNote(env, s, input.id).Ok?
             && FirstFailure(StatusChecks(v, GetNote(env, s, input.id).value, input)) == Pass
             && NotesUpdateStatus !in env.faults) ==>
              r == Run(s.(notes := s.notes[input.id := s.notes[input.id].(status := input.status)],
                          log := s.log + [NoteStatusUpdated(input.id, input.status)]),
                       Ok(s.notes[input.id].(id := input.id, status := input.status)))
    ensures (&& GetNote(env, s, input.id).Ok?
             && FirstFailure(StatusChecks(v, GetNote(env, s, input.id).value, input)) == Pass
             && NotesUpdateStatus in env.faults) ==>
              r == Run(s, Err(Failure(NotesUpdateStatus)))
  {
    match GetNote(env, s, input.id)
    case Err(e) => Run(s, Err(e))
    case Ok(current) =>
      var checks := StatusChecks(v, current, input);
      FirstFailureOfFour(checks[0], checks[1], checks[2], checks[3]);
      var owned := v.validateNoteOwnership(current.ownerId, input.ownerId);
      if owned.Fail? then Run(s, Err(owned.error))
      else
        var valid := v.validateStatus(input.status);
        if valid.Fail? then Run(s, Err(valid.error))
        else
          var allowed := if input.status == StatusPublish then v.canPublish(current, input.ownerId)
                         else v.canUnpublish(current, input.ownerId);
          if allowed.Fail? then Run(s, Err(allowed.error))
          else
            var legal := v.canChangeStatus(current.status, input.status);
            if legal.Fail? then Run(s, Err(legal.error))
            else
              var updated := UpdateNoteStatus(env, s, input.id, input.status);
              if updated.result.Err? then Run(updated.state, Err(updated.result.error))
              else Run(updated.state, GetNote(env, updated.state, input.id))
  }

  // ---- Delete ----

  /** Deletes a note. The store's delete runs only after the note was found
      and the ownership check passed; otherwise nothing is written. */
  function Delete(v: Validators, env: Env, s: State, id: string, ownerId: string): (r: Run<()>)
    ensures GetNote(env, s, id).Err? ==> r == Run(s, Err(GetNote(env, s, id).error))
    ensures GetNote(env, s, id).Ok? &&
            v.validateNoteOwnership(GetNote(env, s, id).value.ownerId, ownerId).Fail? ==>
              r == Run(s, Err(v.validateNoteOwnership(GetNote(env, s, id).value.ownerId, ownerId).error))
    ensures r.state == s || (
              && id in s.notes
              && v.validateNoteOwnership(s.notes[id].ownerId, ownerId) == Pass
              && r.state == s.(notes := s.notes - {id}, log := s.log + [NoteDeleted(id)]))
    ensures r.result.Ok? ==> id !in r.state.notes
    ensures (&& GetNote(env, s, id).Ok?
             && v.validateNoteOwnership(s.notes[id].ownerId, ownerId) == Pass
             && NotesDelete !in env.faults) ==>
              r == Run(s.(notes := s.notes - {id}, log := s.log + [NoteDeleted(id)]), Ok(()))
    ensures (&& GetNote(env, s, id).Ok?
             && v.validateNoteOwnership(s.notes[id].ownerId, ownerId) == Pass
             && NotesDelete in env.faults) ==>
              r == Run(s, Err(Failure(NotesDelete)))
  {
    match GetNote(env, s, id)
    case Err(e) => Run(s, Err(e))
    case Ok(current) =>
      var owned := v.validateNoteOwnership(current.ownerId, ownerId);
      if owned.Fail? then Run(s, Err(owned.error))
      else DeleteNote(env, s, id)
  }
}
