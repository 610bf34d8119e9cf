/** Store invariants every use case preserves: every note refers to an
    existing template (the reason for the TemplateInUse rule), every stored
    section is stamped with its note's id, and the write log only grows. */
module StoreInvariants {

  import opened DomainErrors
  import opened TemplateDomain
  import opened NoteDomain
  import opened Rules
  import opened Ports
  import opened Store
  import NoteInteractor
  import TemplateInteractor

  lemma NoteCreatePreserves(v: Validators, env: Env, s: State, input: NoteCreateInput)
    requires Consistent(s)
    ensures Consistent(NoteInteractor.Create(v, env, s, input).state)
    ensures s.log <= NoteInteractor.Create(v, env, s, input).state.log
  {
    var r := NoteInteractor.Create(v, env, s, input);
    if r.state != s {
      var tpl := GetTemplate(env, s, input.templateId).value.template;
      var id := env.newNoteId;
      var n := NoteInteractor.DraftFor(input, tpl, id);
      assert r.state.notes == s.notes[id := n];
      assert n.templateId == input.templateId;
      assert forall sec :: sec in n.sections ==> sec.noteId == id;
    }
  }

  /** Helper: storing one note on a stored template, with every section
      stamped with its id, keeps the store consistent. */
  lemma PutNotePreserves(s: State, id: string, n: Note, log: seq<Write>)
    requires Consistent(s)
    requires n.templateId in s.templates
    requires forall sec :: sec in n.sections ==> sec.noteId == id
    ensures Consistent(State(s.notes[id := n], s.templates, log))
  {
  }

  lemma NoteUpdatePreserves(v: Validators, env: Env, s: State, input: NoteUpdateInput)
    requires Consistent(s)
    ensures Consistent(NoteInteractor.Update(v, env, s, input).state)
    ensures s.log <= NoteInteractor.Update(v, env, s, input).state.log
  {
    var r := NoteInteractor.Update(v, env, s, input);
    if r.state != s {
      var current := s.notes[input.id];
      if input.sections.None? {
        PutNotePreserves(s, input.id, current.(title := input.title), r.state.log);
      } else {
        var fields := s.templates[current.templateId].fields;
        var sections := NoteInteractor.BuildSections(input.id, fields, input.sections.value);
        PutNotePreserves(s, input.id, current.(title := input.title, sections := sections), r.state.log);
      }
    }
  }

  lemma NoteChangeStatusPreserves(v: Validators, env: Env, s: State, input: NoteStatusChangeInput)
    requires Consistent(s)
    ensures Consistent(NoteInteractor.ChangeStatus(v, env, s, input).state)
    ensures s.log <= NoteInteractor.ChangeStatus(v, env, s, input).state.log
  {
  }

  lemma NoteDeletePreserves(v: Validators, env: Env, s: State, id: string, ownerId: string)
    requires Consistent(s)
    ensures Consistent(NoteInteractor.Delete(v, env, s, id, ownerId).state)
    ensures s.log <= NoteInteractor.Delete(v, env, s, id, ownerId).state.log
  {
  }

  lemma TemplateCreatePreserves(v: Validators, env: Env, s: State, input: TemplateCreateInput)
    requires Consistent(s)
    ensures Consistent(TemplateInteractor.Create(v, env, s, input).state)
    ensures s.log <= TemplateInteractor.Create(v, env, s, input).state.log
  {
  }

  lemma TemplateUpdatePreserves(v: Validators, env: Env, s: State, input: TemplateUpdateInput)
    requires Consistent(s)
    ensures Consistent(TemplateInteractor.Update(v, env, s, input).state)
    ensures s.log <= TemplateInteractor.Update(v, env, s, input).state.log
  {
  }

  /** Deleting a template can never leave a note pointing at nothing, because
      a template some note refers to is refused. */
  lemma TemplateDeletePreserves(env: Env, s: State, id: string)
    requires Consistent(s)
    ensures Consistent(TemplateInteractor.Delete(env, s, id).state)
    ensures s.log <= TemplateInteractor.Delete(env, s, id).state.log
  {
    var r := TemplateInteractor.Delete(env, s, id);
    if r.state != s {
      forall k | k in r.state.notes
        ensures r.state.notes[k].templateId in r.state.templates
      {
        assert s.notes[k].templateId != id;
      }
    }
  }
}
