/** The template use cases (backend-clean/internal/usecase/template_interactor.go)
    as functions over the explicit store. */
module TemplateInteractor {

  import opened Wrappers
  import opened DomainErrors
  import opened Timestamps
  import opened TemplateDomain
  import opened Rules
  import opened Ports
  import opened Store

  // ---- Create ----

  /** The field list Create writes: the normaliser's output (nil read as
      empty) when the caller gave fields, else the caller's empty list. */
  function CreateFields(v: Validators, input: TemplateCreateInput): seq<Field>
    requires |input.fields| > 0 ==> v.normalizeAndValidate(input.fields).Ok?
  {
    if |input.fields| > 0 then Elements(v.normalizeAndValidate(input.fields).value) else input.fields
  }

  /** The template Create stores under `id`. */
  function NewTemplate(input: TemplateCreateInput, id: string, fields: seq<Field>): Template {
    Template(id, input.name, input.ownerId, fields, ZeroTime)
  }

  /** The state after a committed Create: the new template under `id`, the
      root insert logged and, for a non-empty list, the field replacement. */
  function WithNewTemplate(s: State, input: TemplateCreateInput, id: string, fields: seq<Field>): State {
    s.(templates := s.templates[id := NewTemplate(input, id, fields)],
       log := s.log + [TemplateCreated(id)] + (if |fields| > 0 then [FieldsReplaced(id, fields)] else []))
  }

  /** The transaction body of Create: insert the root, then, when there are
      fields, replace them under the new id. Success leaves exactly the new
      template and the one or two writes; a failed root insert leaves no
      trace; a failed field write leaves the bare root for the transaction
      to roll back. */
  function CreateTx(env: Env, input: TemplateCreateInput, fields: seq<Field>, s: State): (r: Run<string>)
    ensures var id := env.newTemplateId;
            r.result.Ok? ==>
              && id !in s.templates
              && r == Run(WithNewTemplate(s, input, id, fields), Ok(id))
    ensures var id := env.newTemplateId;
            r.result.Err? ==>
              || r.state == s
              || (&& |fields| > 0
                  && id !in s.templates
                  && r.result.error == Failure(TemplatesReplaceFields)
                  && r.state == s.(templates := s.templates[id := NewTemplate(input, id, [])],
                                   log := s.log + [TemplateCreated(id)]))
    ensures TemplatesCreate in env.faults ==> r == Run(s, Err(Failure(TemplatesCreate)))
    ensures TemplatesCreate !in env.faults && env.newTemplateId in s.templates ==> r == Run(s, Err(DuplicateKey))
    ensures (&& TemplatesCreate !in env.faults && env.newTemplateId !in s.templates
             && |fields| > 0 && TemplatesReplaceFields in env.faults) ==>
              r == Run(s.(templates := s.templates[env.newTemplateId := NewTemplate(input, env.newTemplateId, [])],
                          log := s.log + [TemplateCreated(env.newTemplateId)]),
                       Err(Failure(TemplatesReplaceFields)))
    ensures (TemplatesCreate !in env.faults && env.newTemplateId !in s.templates &&
             (|fields| > 0 ==> TemplatesReplaceFields !in env.faults)) ==> r.result.Ok?
  {
    var created := CreateTemplate(env, s, Template("", input.name, input.ownerId, [], ZeroTime));
    if created.result.Err? then Run(created.state, Err(created.result.error))
    else
      var id := created.result.value.id;
      if |fields| > 0 then
        var replaced := ReplaceFields(env, created.state, id, fields);
        if replaced.result.Err? then Run(replaced.state, Err(replaced.result.error))
        else Run(replaced.state, Ok(id))
      else Run(created.state, Ok(id))
  }

  /** Creates a template. Fields are normalised only when some were given, and
      a normalisation error is returned before any write. The root and its
      fields are then written together or not at all: the state afterwards is
      the one before, or it holds exactly one new template with the caller's
      name and owner and the normalised fields, with the log extended by the
      root insert and, only when that list is non-empty, the field
      replacement. The template is read back only after a commit. No check of
      the name happens anywhere. */
  function Create(v: Validators, env: Env, s: State, input: TemplateCreateInput): (r: Run<WithUsage>)
    ensures |input.fields| > 0 && v.normalizeAndValidate(input.fields).Err? ==>
              r == Run(s, Err(v.normalizeAndValidate(input.fields).error))
    ensures r.state == s || (
              && (|input.fields| > 0 ==> v.normalizeAndValidate(input.fields).Ok?)
              && var id := env.newTemplateId;
                 var fields := CreateFields(v, input);
                 && id !in s.templates
                 && r.state == WithNewTemplate(s, input, id, fields))
    ensures r.result.Ok? ==> r.state != s && r.result.value.template == r.state.templates[env.newTemplateId]
    ensures (&& (|input.fields| > 0 ==> v.normalizeAndValidate(input.fields).Ok?)
             && Begin !in env.faults && Commit !in env.faults
             && TemplatesCreate !in env.faults && TemplatesGet !in env.faults
             && env.newTemplateId !in s.templates
             && (|CreateFields(v, input)| > 0 ==> TemplatesReplaceFields !in env.faults)) ==>
              var id := env.newTemplateId;
              var t := NewTemplate(input, id, CreateFields(v, input));
              && r.state == WithNewTemplate(s, input, id, CreateFields(v, input))
              && r.result == Ok(WithUsage(t, t.fields, IsUsed(r.state, id)))
    ensures (|input.fields| > 0 ==> v.normalizeAndValidate(input.fields).Ok?) ==>
              var id := env.newTemplateId;
              var fields := CreateFields(v, input);
              && (Begin in env.faults ==> r == Run(s, Err(Failure(Begin))))
              && (Begin !in env.faults && TemplatesCreate in env.faults ==> r == Run(s, Err(Failure(TemplatesCreate))))
              && (Begin !in env.faults && TemplatesCreate !in env.faults && id in s.templates ==>
                    r == Run(s, Err(DuplicateKey)))
              && (Begin !in env.faults && TemplatesCreate !in env.faults && id !in s.templates ==>
                    && (|fields| > 0 && TemplatesReplaceFields in env.faults ==>
                          r == Run(s, Err(Failure(TemplatesReplaceFields))))
                    && ((|fields| > 0 ==> TemplatesReplaceFields !in env.faults) ==>
                          && (Commit in env.faults ==> r == Run(s, Err(Failure(Commit))))
                          && (Commit !in env.faults && TemplatesGet in env.faults ==>
                                r == Run(WithNewTemplate(s, input, id, fields), Err(Failure(TemplatesGet))))))
  {
    if |input.fields| > 0 && v.normalizeAndValidate(input.fields).Err? then
      Run(s, Err(v.normalizeAndValidate(input.fields).error))
    else
      var fields := CreateFields(v, input);
      var tx := WithinTransaction(env, s, (ts: State) => CreateTx(env, input, fields, ts));
      if tx.result.Err? then Run(tx.state, Err(tx.result.error))
      else Run(tx.state, GetTemplate(env, tx.state, tx.result.value))
  }

  // ---- Update ----

  /** The field list Update works with: nil when the caller gave none, else
      the normaliser's output, which may itself be nil. */
  function UpdateFields(v: Validators, input: TemplateUpdateInput): Option<seq<Field>>
    requires input.fields.Some? ==> v.normalizeAndValidate(input.fields.value).Ok?
  {
    if input.fields.Some? then v.normalizeAndValidate(input.fields.value).value else None
  }

  /** The state after a committed Update: the name, and with a non-empty
      list the fields, replaced, and the matching writes logged. */
  function Updated(s: State, input: TemplateUpdateInput, fields: Option<seq<Field>>): State
    requires input.id in s.templates
  {
    if fields.None? then
      s.(templates := s.templates[input.id := s.templates[input.id].(name := input.name)],
         log := s.log + [TemplateRenamed(input.id, input.name)])
    else
      s.(templates := s.templates[input.id := s.templates[input.id].(name := input.name, fields := fields.value)],
         log := s.log + [TemplateRenamed(input.id, input.name), FieldsReplaced(input.id, fields.value)])
  }

  /** The transaction body of Update: rename, then refuse an empty non-nil
      field list or replace the fields. Success means the template exists,
      the list is nil or non-empty, and the state is exactly the rename and,
      for a list, the field replacement; an empty non-nil list always fails,
      with InvalidTemplateField once the rename went through. */
  function UpdateTx(env: Env, input: TemplateUpdateInput, fields: Option<seq<Field>>, s: State): (r: Run<()>)
    ensures r.result.Ok? ==>
              && input.id in s.templates
              && (fields.Some? ==> |fields.value| > 0)
              && r.state == Updated(s, input, fields)
    ensures r.result.Ok? ==> |r.state.log| > |s.log|
    ensures fields.Some? && |fields.value| == 0 ==> r.result.Err?
    ensures fields.Some? && |fields.value| == 0 && TemplatesUpdate !in env.faults && input.id in s.templates ==>
              r.result == Err(InvalidTemplateField)
    ensures (TemplatesUpdate !in env.faults && input.id in s.templates &&
             (fields.Some? ==> |fields.value| > 0 && TemplatesReplaceFields !in env.faults)) ==> r.result.Ok?
    ensures TemplatesUpdate in env.faults ==> r == Run(s, Err(Failure(TemplatesUpdate)))
    ensures TemplatesUpdate !in env.faults && input.id !in s.templates ==> r == Run(s, Err(NotFound))
    ensures (&& TemplatesUpdate !in env.faults && input.id in s.templates
             && fields.Some? && |fields.value| > 0 && TemplatesReplaceFields in env.faults) ==>
              r.result == Err(Failure(TemplatesReplaceFields))
  {
    var renamed := RenameTemplate(env, s, input.id, input.name);
    if renamed.result.Err? || fields.None? then renamed
    else if |fields.value| == 0 then Run(renamed.state, Err(InvalidTemplateField))
    else ReplaceFields(env, renamed.state, input.id, fields.value)
  }

  /** Updates a template. Fields are normalised only when the caller gave a
      non-nil list, and a normalisation error is returned before any write.
      With no list (or a nil one from the normaliser) only the name changes;
      with a non-empty list the name and the fields change together or not at
      all; an empty non-nil list is refused with InvalidTemplateField inside
      the transaction, after the rename, which is therefore rolled back. */
  function Update(v: Validators, env: Env, s: State, input: TemplateUpdateInput): (r: Run<WithUsage>)
    ensures input.fields.Some? && v.normalizeAndValidate(input.fields.value).Err? ==>
              r == Run(s, Err(v.normalizeAndValidate(input.fields.value).error))
    ensures r.state == s || (
              && (input.fields.Some? ==> v.normalizeAndValidate(input.fields.value).Ok?)
              && input.id in s.templates
              && var fields := UpdateFields(v, input);
                 && (fields.None? ==>
                       r.state == s.(templates := s.templates[input.id := s.templates[input.id].(name := input.name)],
                                     log := s.log + [TemplateRenamed(input.id, input.name)]))
                 && (fields.Some? ==>
                       && |fields.value| > 0
                       && r.state == s.(templates := s.templates[input.id := s.templates[input.id].(name := input.name,
                                                                                                  fields := fields.value)],
                                        log := s.log + [TemplateRenamed(input.id, input.name),
                                                        FieldsReplaced(input.id, fields.value)])))
    ensures input.fields.Some? && v.normalizeAndValidate(input.fields.value) == Ok(Some([])) ==>
              && r.state == s
              && (Begin !in env.faults && TemplatesUpdate !in env.faults && input.id in s.templates ==>
                    r.result == Err(InvalidTemplateField))
    ensures r.result.Ok? ==> r.state != s
    ensures (&& (input.fields.Some? ==> v.normalizeAndValidate(input.fields.value).Ok?)
             && Begin !in env.faults && Commit !in env.faults
             && TemplatesUpdate !in env.faults && TemplatesGet !in env.faults
             && input.id in s.templates
             && (UpdateFields(v, input).Some? ==>
                   |UpdateFields(v, input).value| > 0 && TemplatesReplaceFields !in env.faults)) ==>
              && r.state == Updated(s, input, UpdateFields(v, input))
              && var t := r.state.templates[input.id].(id := input.id);
                 r.result == Ok(WithUsage(t, t.fields, IsUsed(r.state, input.id)))
    ensures (input.fields.Some? ==> v.normalizeAndValidate(input.fields.value).Ok?) ==>
              var fields := UpdateFields(v, input);
              && (Begin in env.faults ==> r == Run(s, Err(Failure(Begin))))
              && (Begin !in env.faults && TemplatesUpdate in env.faults ==> r == Run(s, Err(Failure(TemplatesUpdate))))
              && (Begin !in env.faults && TemplatesUpdate !in env.faults && input.id !in s.templates ==>
                    r == Run(s, Err(NotFound)))
              && (Begin !in env.faults && TemplatesUpdate !in env.faults && input.id in s.templates ==>
                    && (fields.Some? && |fields.value| > 0 && TemplatesReplaceFields in env.faults ==>
                          r == Run(s, Err(Failure(TemplatesReplaceFields))))
                    && ((fields.Some? ==> |fields.value| > 0 && TemplatesReplaceFields !in env.faults) ==>
                          && (Commit in env.faults ==> r == Run(s, Err(Failure(Commit))))
                          && (Commit !in env.faults && TemplatesGet in env.faults ==>
                                r == Run(Updated(s, input, fields), Err(Failure(TemplatesGet))))))
  {
    if input.fields.Some? && v.normalizeAndValidate(input.fields.value).Err? then
      Run(s, Err(v.normalizeAndValidate(input.fields.value).error))
    else
      var fields := UpdateFields(v, input);
      var tx := WithinTransaction(env, s, (ts: State) => UpdateTx(env, input, fields, ts));
      if tx.result.Err? then Run(tx.state, Err(tx.result.error))
      else Run(tx.state, GetTemplate(env, tx.state, input.id))
  }

  // ---- Delete ----

  /** Deletes a template. A failed read is returned as it is, and a template
      that some note refers to is refused with TemplateInUse; in both cases
      the store's delete is never called. (The source names the sentinel
      `errors.ErrTemplateInUse` while importing the errors package as
      `domainerr`; it is read as the TemplateInUse kind.) */
  function Delete(env: Env, s: State, id: string): (r: Run<()>)
    ensures GetTemplate(env, s, id).Err? ==> r == Run(s, Err(GetTemplate(env, s, id).error))
    ensures GetTemplate(env, s, id).Ok? && IsUsed(s, id) ==> r == Run(s, Err(TemplateInUse))
    ensures r.state == s || (
              && id in s.templates
              && !IsUsed(s, id)
              && r.state == s.(templates := s.templates - {id}, log := s.log + [TemplateDeleted(id)]))
    ensures GetTemplate(env, s, id).Ok? && !IsUsed(s, id) && TemplatesDelete !in env.faults ==>
              r == Run(s.(templates := s.templates - {id}, log := s.log + [TemplateDeleted(id)]), Ok(()))
    ensures GetTemplate(env, s, id).Ok? && !IsUsed(s, id) && TemplatesDelete in env.faults ==>
              r == Run(s, Err(Failure(TemplatesDelete)))
  {
    match GetTemplate(env, s, id)
    case Err(e) => Run(s, Err(e))
    case Ok(found) =>
      if found.isUsed then Run(s, Err(TemplateInUse))
      else DeleteTemplate(env, s, id)
  }
}
